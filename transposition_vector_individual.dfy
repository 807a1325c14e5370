/**
 * The transposition individual: a chromosome of unsigned integers read as
 * successive pairs (i, j), recombined pair by pair with a biased coin.
 */
module Transposition {
  import opened Basics
  import opened Rng

  /** A chromosome made of whole pairs: the constructor's even-length check. */
  type PairChromosome = c: seq<uint32> | |c| % 2 == 0

  /** TranspositionVectorIndividual: the chromosome is fixed at construction and has even length. */
  datatype TranspositionVectorIndividual = TranspositionVectorIndividual(chromosome: PairChromosome) {
    /** component(i): the i-th entry. */
    function Component(i: nat): uint32
      requires i < |chromosome|
    {
      chromosome[i]
    }

    /**
     * biased_crossover_with: copies this chromosome, then draws one coin per
     * pair, in order, and takes both entries of the pair from `other` when the
     * coin is at least `bias`.
     */
    method BiasedCrossoverWith(other: TranspositionVectorIndividual, bias: real, mt: Engine, uniform: Engine -> real)
      returns (child: TranspositionVectorIndividual, mt': Engine)
      requires |other.chromosome| == |chromosome|
      requires 0.0 <= bias <= 1.0
      ensures child.chromosome == PairCrossover(chromosome, other.chromosome, bias, Draws(uniform, mt, |chromosome| / 2))
      ensures mt' == mt.Advance(|chromosome| / 2)
    {
      var n := |chromosome|;
      var newChromosome := new uint32[n](i requires 0 <= i < n => chromosome[i]);
      ghost var coins := Draws(uniform, mt, n / 2);
      mt' := mt;
      var i := 0;
      while i < n
        invariant 0 <= i <= n && i % 2 == 0
        invariant mt' == mt.Advance(i / 2)
        invariant forall k :: 0 <= k < i ==> newChromosome[k] == if coins[k / 2] >= bias then other.chromosome[k] else chromosome[k]
        invariant forall k :: i <= k < n ==> newChromosome[k] == chromosome[k]
      {
        var p := uniform(mt');
        mt' := mt'.Advance(1);
        if p >= bias {
          newChromosome[i] := other.chromosome[i];
          newChromosome[i + 1] := other.chromosome[i + 1];
        }
        i := i + 2;
      }
      child := TranspositionVectorIndividual(newChromosome[..]);
    }
  }

  /** The child that the coins produce: pair k (entries 2k and 2k+1) from `theirs` when coin k is at least `bias`. */
  function PairCrossover(mine: PairChromosome, theirs: PairChromosome, bias: real, coins: seq<real>): PairChromosome
    requires |theirs| == |mine| && |coins| == |mine| / 2
  {
    seq(|mine|, i requires 0 <= i < |mine| => if coins[i / 2] >= bias then theirs[i] else mine[i])
  }

  /** Pairs are never split: both entries of pair k come from the parent that coin k selects. */
  lemma PairsStayTogether(mine: PairChromosome, theirs: PairChromosome, bias: real, coins: seq<real>, k: nat)
    requires |theirs| == |mine| && |coins| == |mine| / 2 && k < |mine| / 2
    ensures var child := PairCrossover(mine, theirs, bias, coins);
      if coins[k] >= bias then child[2 * k] == theirs[2 * k] && child[2 * k + 1] == theirs[2 * k + 1]
      else child[2 * k] == mine[2 * k] && child[2 * k + 1] == mine[2 * k + 1]
  {
  }

  /** If every entry of both parents is below n, so is every entry of the child. */
  lemma PairCrossoverInRange(mine: PairChromosome, theirs: PairChromosome, bias: real, coins: seq<real>, n: nat)
    requires |theirs| == |mine| && |coins| == |mine| / 2
    requires forall i :: 0 <= i < |mine| ==> mine[i] < n && theirs[i] < n
    ensures |PairCrossover(mine, theirs, bias, coins)| == |mine|
    ensures forall i :: 0 <= i < |mine| ==> PairCrossover(mine, theirs, bias, coins)[i] < n
  {
  }
}
