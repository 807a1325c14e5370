/**
 * The travelling-salesman evaluator for transposition individuals: starting
 * from 0, 1, ..., n-1, the first n-1 pairs (x, y) of the chromosome each swap
 * the entries at positions x and y; the result is the tour, and the
 * individual's objective value is its cost.
 */
module TranspositionTsp {
  import opened Basics
  import opened TspGraph
  import opened Tour
  import opened Transposition

  /** The first k pairs of `c` name positions below n. */
  predicate PairsInRange(c: seq<nat>, k: nat, n: nat) {
    2 * k <= |c| && forall i :: 0 <= i < 2 * k ==> c[i] < n
  }

  /** Applies the swaps of pairs 0 .. k-1 of `c` to `p`, in order. */
  function ApplySwaps(p: seq<nat>, c: seq<nat>, k: nat): (r: seq<nat>)
    requires PairsInRange(c, k, |p|)
    ensures |r| == |p|
  {
    if k == 0 then p else Swap(ApplySwaps(p, c, k - 1), c[2 * k - 2], c[2 * k - 1])
  }

  /** The tour an n-node transposition chromosome encodes: its first n-1 swaps applied to 0 .. n-1. */
  function SwapDecode(n: nat, c: seq<nat>): (tour: seq<nat>)
    requires n >= 1 && PairsInRange(c, n - 1, n)
    ensures |tour| == n
  {
    ApplySwaps(Iota(n), c, n - 1)
  }

  /** Any number of swaps turns a permutation into a permutation. */
  lemma {:induction false} ApplySwapsPermutes(p: seq<nat>, c: seq<nat>, k: nat)
    requires PairsInRange(c, k, |p|)
    ensures multiset(ApplySwaps(p, c, k)) == multiset(p)
  {
    if k > 0 {
      ApplySwapsPermutes(p, c, k - 1);
      SwapPermutes(ApplySwaps(p, c, k - 1), c[2 * k - 2], c[2 * k - 1]);
    }
  }

  /** Whatever the chromosome, decoding yields a permutation of the nodes. */
  lemma SwapDecodeIsPermutation(n: nat, c: seq<nat>)
    requires n >= 1 && PairsInRange(c, n - 1, n)
    ensures IsPermutation(SwapDecode(n, c), n)
  {
    ApplySwapsPermutes(Iota(n), c, n - 1);
  }

  /** Only the first k pairs matter: entries after them are never read. */
  lemma {:induction false} ApplySwapsPrefix(p: seq<nat>, c: seq<nat>, d: seq<nat>, k: nat)
    requires PairsInRange(c, k, |p|)
    requires 2 * k <= |d| && d[..2 * k] == c[..2 * k]
    ensures PairsInRange(d, k, |p|)
    ensures ApplySwaps(p, d, k) == ApplySwaps(p, c, k)
  {
    forall i | 0 <= i < 2 * k
      ensures d[i] == c[i]
    {
      assert d[..2 * k][i] == c[..2 * k][i];
    }
    if k > 0 {
      assert d[..2 * (k - 1)] == c[..2 * (k - 1)];
      ApplySwapsPrefix(p, c, d, k - 1);
    }
  }

  /**
   * Every permutation of 0 .. n-1 is the decoding of some chromosome of n-1
   * pairs: pair k brings p[k] to position k.
   */
  lemma {:induction false} EveryTourEncodable(p: seq<nat>, n: nat) returns (c: seq<nat>)
    requires n >= 1 && IsPermutation(p, n)
    ensures |c| == 2 * (n - 1) && PairsInRange(c, n - 1, n)
    ensures SwapDecode(n, c) == p
  {
    PermutationFacts(p, n);
    c := EncodePrefix(p, n, n - 1);
    var cur := SwapDecode(n, c);
    SwapDecodeIsPermutation(n, c);
    assert cur[..n - 1] == p[..n - 1];
    assert cur == cur[..n - 1] + [cur[n - 1]];
    assert p == p[..n - 1] + [p[n - 1]];
    var rest := multiset(p[..n - 1]);
    assert multiset(cur) == rest + multiset{cur[n - 1]} == multiset(p) == rest + multiset{p[n - 1]};
    assert (rest + multiset{p[n - 1]})[cur[n - 1]] == rest[cur[n - 1]] + 1;
  }

  /** The first k pairs of the encoding: after them, positions 0 .. k-1 hold p[0] .. p[k-1]. */
  lemma {:induction false} EncodePrefix(p: seq<nat>, n: nat, k: nat) returns (c: seq<nat>)
    requires |p| == n && InRange(p, n) && k < n
    requires forall a, b :: 0 <= a < b < n ==> p[a] != p[b]
    ensures |c| == 2 * k && PairsInRange(c, k, n)
    ensures forall i :: 0 <= i < k ==> ApplySwaps(Iota(n), c, k)[i] == p[i]
  {
    if k == 0 {
      return [];
    }
    var front := EncodePrefix(p, n, k - 1);
    c := ExtendEncoding(p, n, k - 1, front);
  }

  /** One more pair of the encoding: it brings p[k] to position k. */
  lemma ExtendEncoding(p: seq<nat>, n: nat, k: nat, front: seq<nat>) returns (c: seq<nat>)
    requires |p| == n && InRange(p, n) && k < n
    requires forall a, b :: 0 <= a < b < n ==> p[a] != p[b]
    requires |front| == 2 * k && PairsInRange(front, k, n)
    requires forall i :: 0 <= i < k ==> ApplySwaps(Iota(n), front, k)[i] == p[i]
    ensures |c| == 2 * k + 2 && PairsInRange(c, k + 1, n)
    ensures forall i :: 0 <= i <= k ==> ApplySwaps(Iota(n), c, k + 1)[i] == p[i]
  {
    var cur := ApplySwaps(Iota(n), front, k);
    ApplySwapsPermutes(Iota(n), front, k);
    var j := EncodeStep(cur, p, n, k);
    c := front + [k, j];
    AppendPair(Iota(n), front, k, k, j);
  }

  /** Appending a pair to a chromosome of k pairs adds one swap at the end. */
  lemma AppendPair(p: seq<nat>, c: seq<nat>, k: nat, x: nat, y: nat)
    requires |c| == 2 * k && PairsInRange(c, k, |p|) && x < |p| && y < |p|
    ensures PairsInRange(c + [x, y], k + 1, |p|)
    ensures ApplySwaps(p, c + [x, y], k + 1) == Swap(ApplySwaps(p, c, k), x, y)
  {
    var d := c + [x, y];
    assert d[..2 * k] == c[..2 * k];
    ApplySwapsPrefix(p, c, d, k);
  }

  /** When positions 0 .. k-1 already hold p[0] .. p[k-1], p[k] sits at some position j >= k, and swapping k with j extends the agreement to position k. */
  lemma EncodeStep(cur: seq<nat>, p: seq<nat>, n: nat, k: nat) returns (j: nat)
    requires |p| == n && InRange(p, n) && k < n
    requires forall a, b :: 0 <= a < b < n ==> p[a] != p[b]
    requires |cur| == n && multiset(cur) == multiset(Iota(n))
    requires forall i :: 0 <= i < k ==> cur[i] == p[i]
    ensures k <= j < n == |cur|
    ensures forall i :: 0 <= i <= k ==> Swap(cur, k, j)[i] == p[i]
  {
    PermutationFacts(cur, n);
    assert p[k] in cur;
    j :| 0 <= j < n && cur[j] == p[k];
    assert k <= j by {
      forall i | 0 <= i < k
        ensures cur[i] != p[k]
      {
        assert cur[i] == p[i];
      }
    }
    SwapPermutes(cur, k, j);
  }

  /** Three nodes, pairs (0, 1) then (1, 2): 0 1 2 becomes 1 0 2, then 1 2 0. */
  lemma ExampleDecoding()
    ensures SwapDecode(3, [0, 1, 1, 2]) == [1, 2, 0]
  {
    var c: seq<nat> := [0, 1, 1, 2];
    assert Iota(3) == [0, 1, 2];
    assert ApplySwaps(Iota(3), c, 1) == [1, 0, 2];
  }

  /** The evaluator holds the graph whose tours it prices. */
  datatype TranspositionVectorEvaluator = TranspositionVectorEvaluator(graph: Graph) {
    /**
     * evaluate: applies the chromosome's first n-1 swaps to 0 .. n-1 in
     * place and returns the cost of the closed tour in the resulting order.
     * Every position a swap names must be a node, and the chromosome must
     * hold n-1 pairs.
     */
    method Evaluate(individual: TranspositionVectorIndividual) returns (cost: real, ghost tour: seq<nat>)
      requires graph.NumNodes() >= 1
      requires 2 * (graph.NumNodes() - 1) <= UINT32_MAX
      requires PairsInRange(individual.chromosome, graph.NumNodes() - 1, graph.NumNodes())
      ensures tour == SwapDecode(graph.NumNodes(), individual.chromosome)
      ensures IsPermutation(tour, graph.NumNodes())
      ensures |tour| >= 1 && InRange(tour, graph.NumNodes())
      ensures cost == TourCost(graph, tour)
    {
      var n := graph.NumNodes();
      var c: seq<nat> := individual.chromosome;
      var permutation := IotaArray(n);
      ApplyPairs(permutation, c, n - 1);
      tour := permutation[..];
      SwapDecodeIsPermutation(n, c);
      PermutationFacts(tour, n);
      cost := CyclicCost(graph, permutation);
    }
  }

  /** The swap loop of evaluate: the swaps of pairs 0 .. k-1, in order, on the array. */
  method ApplyPairs(permutation: array<nat>, c: seq<nat>, k: nat)
    requires PairsInRange(c, k, permutation.Length)
    modifies permutation
    ensures permutation[..] == ApplySwaps(old(permutation[..]), c, k)
  {
    ghost var start := permutation[..];
    // The source steps i = 0, 2, 4, ... below 2k; here i = 2 * done.
    var done := 0;
    while done < k
      invariant 0 <= done <= k
      invariant permutation[..] == ApplySwaps(start, c, done)
    {
      var x, y := c[2 * done], c[2 * done + 1];
      ghost var before := permutation[..];
      var t := permutation[x];
      permutation[x] := permutation[y];
      permutation[y] := t;
      assert permutation[..] == Swap(before, x, y);
      done := done + 1;
    }
  }
}
