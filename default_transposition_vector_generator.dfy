/** The default generator of transposition individuals for permutations of `nitems` items. */
module TranspositionGenerator {
  import opened Basics
  import opened Rng
  import opened Transposition

  class DefaultTranspositionVectorGenerator {
    /** Number of items whose permutations the chromosomes encode. */
    const nitems: uint32
    /** The member engine; `generate` advances it. */
    var mt: Engine

    /**
     * The constructor as written: the seeded engine goes into a local that
     * shadows the member, which keeps its default-constructed state.
     */
    constructor (nitems: uint32, deviceData: seq<nat>)
      ensures this.nitems == nitems
      ensures mt == DefaultEngine()
    {
      this.nitems := nitems;
      this.mt := DefaultEngine();
      new;
      var mt := SeededEngine(deviceData);
    }

    /** The constructor as evidently intended: the member engine is seeded from the random device. */
    constructor Seeded(nitems: uint32, deviceData: seq<nat>)
      ensures this.nitems == nitems
      ensures mt == SeededEngine(deviceData)
    {
      this.nitems := nitems;
      this.mt := SeededEngine(deviceData);
    }

    /**
     * generate: 2*(nitems-1) draws of uniform_int_distribution(0, nitems-1).
     * With nitems == 0 the unsigned `nitems - 1` wraps around, and the loop
     * counter is a signed int, so the length must fit below 2^31.
     */
    method Generate(uniformIndex: (Engine, nat) -> nat) returns (individual: TranspositionVectorIndividual)
      requires 1 <= nitems
      requires 2 * (nitems - 1) <= 0x7FFF_FFFF
      requires IsIndexDistribution(uniformIndex)
      modifies this`mt
      ensures individual.chromosome == Draws(e => uniformIndex(e, nitems - 1), old(mt), 2 * (nitems - 1))
      ensures mt == old(mt).Advance(2 * (nitems - 1))
    {
      var dist := e => uniformIndex(e, nitems - 1);
      var chromosome: seq<uint32> := [];
      var i := 0;
      while i < 2 * (nitems - 1)
        invariant 0 <= i <= 2 * (nitems - 1)
        invariant mt == old(mt).Advance(i)
        invariant chromosome == Draws(dist, old(mt), i)
      {
        chromosome := chromosome + [dist(mt)];
        mt := mt.Advance(1);
        i := i + 1;
      }
      individual := TranspositionVectorIndividual(chromosome);
    }
  }

  /** Generated entries lie in [0, nitems-1] and their number is even, so the individual's length check always passes. */
  lemma GeneratedEntriesInRange(uniformIndex: (Engine, nat) -> nat, e: Engine, nitems: nat)
    requires 1 <= nitems && IsIndexDistribution(uniformIndex)
    ensures var c := Draws(x => uniformIndex(x, nitems - 1), e, 2 * (nitems - 1));
      |c| == 2 * (nitems - 1) && |c| % 2 == 0 && forall i :: 0 <= i < |c| ==> c[i] < nitems
  {
  }

  /** As written, the first chromosome does not depend on the random-device data. */
  method FirstChromosomeAsWritten(nitems: uint32, deviceData1: seq<nat>, deviceData2: seq<nat>, uniformIndex: (Engine, nat) -> nat)
    returns (first1: seq<uint32>, first2: seq<uint32>)
    requires 1 <= nitems && 2 * (nitems - 1) <= 0x7FFF_FFFF && IsIndexDistribution(uniformIndex)
    ensures first1 == first2 == Draws(e => uniformIndex(e, nitems - 1), DefaultEngine(), 2 * (nitems - 1))
  {
    var g1 := new DefaultTranspositionVectorGenerator(nitems, deviceData1);
    var g2 := new DefaultTranspositionVectorGenerator(nitems, deviceData2);
    var a := g1.Generate(uniformIndex);
    var b := g2.Generate(uniformIndex);
    first1, first2 := a.chromosome, b.chromosome;
  }

  /** With the member seeded, the first chromosome is the draws of the engine seeded by the device data. */
  method FirstChromosomeSeeded(nitems: uint32, deviceData: seq<nat>, uniformIndex: (Engine, nat) -> nat)
    returns (first: seq<uint32>)
    requires 1 <= nitems && 2 * (nitems - 1) <= 0x7FFF_FFFF && IsIndexDistribution(uniformIndex)
    ensures first == Draws(e => uniformIndex(e, nitems - 1), SeededEngine(deviceData), 2 * (nitems - 1))
  {
    var g := new DefaultTranspositionVectorGenerator.Seeded(nitems, deviceData);
    var a := g.Generate(uniformIndex);
    first := a.chromosome;
  }
}
