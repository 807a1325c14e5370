/**
 * The random-key individual: a fixed chromosome of real keys, recombined
 * position by position with a biased coin.
 */
module RandomKey {
  import opened Rng

  /** RandomVectorIndividual: the chromosome is fixed at construction. */
  datatype RandomVectorIndividual = RandomVectorIndividual(chromosome: seq<real>) {
    /** component(i): the i-th key. */
    function Component(i: nat): real
      requires i < |chromosome|
    {
      chromosome[i]
    }

    /**
     * biased_crossover_with: copies this chromosome, then draws one coin per
     * position, in index order, from `mt` and takes the position from `other`
     * when the coin is at least `bias`.  Returns the child and the engine
     * state after the draws (the engine is passed by reference in the source).
     */
    method BiasedCrossoverWith(other: RandomVectorIndividual, bias: real, mt: Engine, uniform: Engine -> real)
      returns (child: RandomVectorIndividual, mt': Engine)
      requires |other.chromosome| == |chromosome|
      requires 0.0 <= bias <= 1.0
      ensures child.chromosome == KeyCrossover(chromosome, other.chromosome, bias, Draws(uniform, mt, |chromosome|))
      ensures mt' == mt.Advance(|chromosome|)
    {
      var n := |chromosome|;
      var newChromosome := new real[n](i requires 0 <= i < n => chromosome[i]);
      ghost var coins := Draws(uniform, mt, n);
      mt' := mt;
      var i := 0;
      while i < n
        invariant 0 <= i <= n
        invariant mt' == mt.Advance(i)
        invariant forall k :: 0 <= k < i ==> newChromosome[k] == if coins[k] >= bias then other.chromosome[k] else chromosome[k]
        invariant forall k :: i <= k < n ==> newChromosome[k] == chromosome[k]
      {
        var p := uniform(mt');
        mt' := mt'.Advance(1);
        if p >= bias {
          newChromosome[i] := other.chromosome[i];
        }
        i := i + 1;
      }
      child := RandomVectorIndividual(newChromosome[..]);
    }
  }

  /** The child that the coins `coins` produce: position i from `theirs` when coin i is at least `bias`, else from `mine`. */
  function KeyCrossover(mine: seq<real>, theirs: seq<real>, bias: real, coins: seq<real>): seq<real>
    requires |theirs| == |mine| == |coins|
  {
    seq(|mine|, i requires 0 <= i < |mine| => if coins[i] >= bias then theirs[i] else mine[i])
  }

  /** The child has the parents' length; each key comes from one parent at the same index; agreeing parents are copied. */
  lemma KeyCrossoverInherits(mine: seq<real>, theirs: seq<real>, bias: real, coins: seq<real>)
    requires |theirs| == |mine| == |coins|
    ensures |KeyCrossover(mine, theirs, bias, coins)| == |mine|
    ensures forall i :: 0 <= i < |mine| ==>
      KeyCrossover(mine, theirs, bias, coins)[i] == (if coins[i] >= bias then theirs[i] else mine[i])
    ensures forall i :: 0 <= i < |mine| && mine[i] == theirs[i] ==> KeyCrossover(mine, theirs, bias, coins)[i] == mine[i]
  {
  }

  /** With bias 0 every coin in [0,1) satisfies p >= bias: the child is the other parent. */
  lemma ZeroBiasCopiesOther(mine: seq<real>, theirs: seq<real>, coins: seq<real>)
    requires |theirs| == |mine| == |coins|
    requires forall i :: 0 <= i < |coins| ==> 0.0 <= coins[i] < 1.0
    ensures KeyCrossover(mine, theirs, 0.0, coins) == theirs
  {
  }

  /** With bias 1 no coin in [0,1) reaches the bias: the child is this parent. */
  lemma FullBiasCopiesThis(mine: seq<real>, theirs: seq<real>, coins: seq<real>)
    requires |theirs| == |mine| == |coins|
    requires forall i :: 0 <= i < |coins| ==> 0.0 <= coins[i] < 1.0
    ensures KeyCrossover(mine, theirs, 1.0, coins) == mine
  {
  }
}
