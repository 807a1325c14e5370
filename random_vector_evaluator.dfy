/**
 * The travelling-salesman evaluator for random-key individuals: the tour
 * visits the nodes in increasing order of their keys (node i's key is the
 * chromosome's entry i), and the individual's objective value is the cost of
 * that tour.
 */
module RandomKeyTsp {
  import opened TspGraph
  import opened Tour
  import opened RandomKey

  /** Along `p` the keys of the nodes never decrease. */
  ghost predicate KeyOrdered(p: seq<nat>, keys: seq<real>) {
    InRange(p, |keys|) && forall a, b :: 0 <= a < b < |p| ==> keys[p[a]] <= keys[p[b]]
  }

  /**
   * std::sort of the node indices by key, in place.  The key order is all
   * std::sort promises: equal keys may end up in any order, so the contract
   * says nothing about them (this body happens to be an insertion sort).
   */
  method SortByKey(a: array<nat>, keys: seq<real>)
    requires InRange(a[..], |keys|)
    modifies a
    ensures KeyOrdered(a[..], keys)
    ensures multiset(a[..]) == multiset(old(a[..]))
  {
    var i := 0;
    while i < a.Length
      invariant 0 <= i <= a.Length
      invariant InRange(a[..], |keys|)
      invariant PrefixKeyOrdered(a[..], keys, i)
      invariant multiset(a[..]) == multiset(old(a[..]))
    {
      InsertByKey(a, keys, i);
      i := i + 1;
    }
  }

  /** Entries 0 .. i-1 of `p` are in key order. */
  ghost predicate PrefixKeyOrdered(p: seq<nat>, keys: seq<real>, i: nat)
    requires i <= |p| && InRange(p, |keys|)
  {
    forall x, y :: 0 <= x < y < i ==> keys[p[x]] <= keys[p[y]]
  }

  /** One insertion step: moves entry i back past the entries of larger key, so that entries 0 .. i are in key order. */
  method InsertByKey(a: array<nat>, keys: seq<real>, i: nat)
    requires i < a.Length && InRange(a[..], |keys|)
    requires PrefixKeyOrdered(a[..], keys, i)
    modifies a
    ensures InRange(a[..], |keys|)
    ensures PrefixKeyOrdered(a[..], keys, i + 1)
    ensures multiset(a[..]) == multiset(old(a[..]))
  {
    var j := i;
    while j > 0 && keys[a[j - 1]] > keys[a[j]]
      invariant 0 <= j <= i
      invariant Sifting(a[..], keys, i, j)
      invariant multiset(a[..]) == multiset(old(a[..]))
    {
      ghost var before := a[..];
      a[j - 1], a[j] := a[j], a[j - 1];
      assert a[..] == Swap(before, j - 1, j);
      SwapPermutes(before, j - 1, j);
      SiftingStep(before, keys, i, j);
      j := j - 1;
    }
    SiftingDone(a[..], keys, i, j);
  }

  /**
   * Midway through an insertion step the moving entry is at position j:
   * apart from it, entries 0 .. i are in key order, and its key is less than
   * the keys it has already moved past.
   */
  ghost predicate Sifting(p: seq<nat>, keys: seq<real>, i: nat, j: nat) {
    && j <= i < |p| && InRange(p, |keys|)
    && (forall x, y :: 0 <= x < y <= i && x != j && y != j ==> keys[p[x]] <= keys[p[y]])
    && (forall y :: j < y <= i ==> keys[p[j]] < keys[p[y]])
  }

  /** Swapping the moving entry with a predecessor of larger key moves it one place back. */
  lemma SiftingStep(p: seq<nat>, keys: seq<real>, i: nat, j: nat)
    requires Sifting(p, keys, i, j) && 0 < j && keys[p[j - 1]] > keys[p[j]]
    ensures Sifting(Swap(p, j - 1, j), keys, i, j - 1)
  {
    var q := Swap(p, j - 1, j);
    SwapPermutes(p, j - 1, j);
    forall x, y | 0 <= x < y <= i && x != j - 1 && y != j - 1
      ensures keys[q[x]] <= keys[q[y]]
    {
      if x == j {
        assert q[x] == p[j - 1] && q[y] == p[y];
      } else if y == j {
        assert q[x] == p[x] && q[y] == p[j - 1];
      } else {
        assert q[x] == p[x] && q[y] == p[y];
      }
    }
    forall y | j - 1 < y <= i
      ensures keys[q[j - 1]] < keys[q[y]]
    {
      if y > j {
        assert q[y] == p[y];
      }
    }
  }

  /** The step ends at the front or behind a key that is not larger: entries 0 .. i are in key order. */
  lemma SiftingDone(p: seq<nat>, keys: seq<real>, i: nat, j: nat)
    requires Sifting(p, keys, i, j) && (j == 0 || keys[p[j - 1]] <= keys[p[j]])
    ensures PrefixKeyOrdered(p, keys, i + 1)
  {
    forall x, y | 0 <= x < y <= i
      ensures keys[p[x]] <= keys[p[y]]
    {
      if y == j && x < j - 1 {
        assert keys[p[x]] <= keys[p[j - 1]];
      }
    }
  }

  /** The evaluator holds the graph whose tours it prices. */
  datatype RandomVectorEvaluator = RandomVectorEvaluator(graph: Graph) {
    /**
     * evaluate: sorts 0 .. n-1 by key and returns the cost of the closed tour
     * in that order.  Needs at least one node and a key for every node.
     */
    method Evaluate(individual: RandomVectorIndividual) returns (cost: real, ghost tour: seq<nat>)
      requires graph.NumNodes() >= 1
      requires |individual.chromosome| >= graph.NumNodes()
      ensures IsPermutation(tour, graph.NumNodes())
      ensures KeyOrdered(tour, individual.chromosome)
      ensures |tour| >= 1 && InRange(tour, graph.NumNodes())
      ensures cost == TourCost(graph, tour)
    {
      var n := graph.NumNodes();
      var permutation := IotaArray(n);
      SortByKey(permutation, individual.chromosome);
      PermutationFacts(permutation[..], n);
      cost := CyclicCost(graph, permutation);
      tour := permutation[..];
    }
  }

  /** With pairwise different keys, there is only one key-ordered permutation: decoding is determined by the keys. */
  lemma DistinctKeysDetermineTour(p: seq<nat>, q: seq<nat>, keys: seq<real>, n: nat)
    requires IsPermutation(p, n) && IsPermutation(q, n)
    requires KeyOrdered(p, keys) && KeyOrdered(q, keys)
    requires forall u, v :: 0 <= u < v < n && v < |keys| ==> keys[u] != keys[v]
    ensures p == q
  {
    PermutationFacts(p, n);
    PermutationFacts(q, n);
    forall k | 0 <= k < n
      ensures p[k] == q[k]
    {
      SameAt(p, q, keys, n, k);
    }
  }

  /** Position k of two key-ordered permutations, given distinct keys. */
  lemma {:induction false} SameAt(p: seq<nat>, q: seq<nat>, keys: seq<real>, n: nat, k: nat)
    requires |p| == |q| == n && InRange(p, n) && InRange(q, n)
    requires forall a, b :: 0 <= a < b < n ==> p[a] != p[b]
    requires forall a, b :: 0 <= a < b < n ==> q[a] != q[b]
    requires forall v: nat :: v < n ==> v in p
    requires forall v: nat :: v < n ==> v in q
    requires KeyOrdered(p, keys) && KeyOrdered(q, keys)
    requires forall u, v :: 0 <= u < v < n && v < |keys| ==> keys[u] != keys[v]
    requires k < n
    ensures p[k] == q[k]
    decreases k
  {
    forall j | 0 <= j < k
      ensures p[j] == q[j]
    {
      SameAt(p, q, keys, n, j);
    }
    // p[k] sits in q at a position m >= k, and q[k] sits in p at a position m' >= k.
    assert p[k] < n && q[k] < n;
    assert p[k] in q && q[k] in p;
    var m :| 0 <= m < |q| && q[m] == p[k];
    var m' :| 0 <= m' < |p| && p[m'] == q[k];
    assert k <= m && k <= m';
    // keys[q[k]] <= keys[q[m]] == keys[p[k]] <= keys[p[m']] == keys[q[k]]
    assert keys[q[k]] <= keys[p[k]] <= keys[q[k]];
  }

  /** Keys 0.1, 0.4, 0.3, 0.2 decode to the tour 0, 3, 2, 1, whatever sort is used. */
  lemma ExampleDecoding(tour: seq<nat>)
    requires IsPermutation(tour, 4)
    requires KeyOrdered(tour, [0.1, 0.4, 0.3, 0.2])
    ensures tour == [0, 3, 2, 1]
  {
    var keys := [0.1, 0.4, 0.3, 0.2];
    var expected: seq<nat> := [0, 3, 2, 1];
    assert Iota(4) == [0, 1, 2, 3];
    assert multiset(expected) == multiset(Iota(4));
    DistinctKeysDetermineTour(tour, expected, keys, 4);
  }
}
