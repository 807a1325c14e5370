/** The default generator of random-key individuals of a fixed length. */
module RandomKeyGenerator {
  import opened Basics
  import opened Rng
  import opened RandomKey

  class DefaultRandomVectorGenerator {
    /** Length of the generated chromosomes. */
    const length: uint32
    /** The member engine; `generate` advances it. */
    var mt: Engine

    /**
     * The constructor as written: it builds a seeded engine from the random
     * device into a local variable that shadows the member, so the member
     * keeps its default-constructed state whatever the device returned.
     */
    constructor (length: uint32, deviceData: seq<nat>)
      ensures this.length == length
      ensures mt == DefaultEngine()
    {
      this.length := length;
      this.mt := DefaultEngine();
      new;
      var mt := SeededEngine(deviceData);
    }

    /** The constructor as evidently intended: the member engine is seeded from the random device. */
    constructor Seeded(length: uint32, deviceData: seq<nat>)
      ensures this.length == length
      ensures mt == SeededEngine(deviceData)
    {
      this.length := length;
      this.mt := SeededEngine(deviceData);
    }

    /** generate: `length` draws from the member engine, in order, one per position. */
    method Generate(uniform: Engine -> real) returns (individual: RandomVectorIndividual)
      modifies this`mt
      ensures individual.chromosome == Draws(uniform, old(mt), length)
      ensures mt == old(mt).Advance(length)
    {
      var chromosome: seq<real> := [];
      var i := 0;
      while i < length
        invariant 0 <= i <= length
        invariant mt == old(mt).Advance(i)
        invariant chromosome == Draws(uniform, old(mt), i)
      {
        chromosome := chromosome + [uniform(mt)];
        mt := mt.Advance(1);
        i := i + 1;
      }
      individual := RandomVectorIndividual(chromosome);
    }
  }

  /** A generated chromosome has `length` keys, each in [0,1). */
  lemma GeneratedKeysInUnitInterval(uniform: Engine -> real, e: Engine, length: nat)
    requires IsUnitInterval(uniform)
    ensures |Draws(uniform, e, length)| == length
    ensures forall i :: 0 <= i < length ==> 0.0 <= Draws(uniform, e, length)[i] < 1.0
  {
  }

  /**
   * As written, the first chromosome of a freshly built generator does not
   * depend on the random-device data: two generators built from any two
   * device outputs produce the same chromosome, the default engine's draws.
   */
  method FirstChromosomeAsWritten(length: uint32, deviceData1: seq<nat>, deviceData2: seq<nat>, uniform: Engine -> real)
    returns (first1: seq<real>, first2: seq<real>)
    ensures first1 == first2 == Draws(uniform, DefaultEngine(), length)
  {
    var g1 := new DefaultRandomVectorGenerator(length, deviceData1);
    var g2 := new DefaultRandomVectorGenerator(length, deviceData2);
    var a := g1.Generate(uniform);
    var b := g2.Generate(uniform);
    first1, first2 := a.chromosome, b.chromosome;
  }

  /** With the member seeded, the first chromosome is the draws of the engine seeded by the device data. */
  method FirstChromosomeSeeded(length: uint32, deviceData: seq<nat>, uniform: Engine -> real)
    returns (first: seq<real>)
    ensures first == Draws(uniform, SeededEngine(deviceData), length)
  {
    var g := new DefaultRandomVectorGenerator.Seeded(length, deviceData);
    var a := g.Generate(uniform);
    first := a.chromosome;
  }
}
