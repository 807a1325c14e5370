/**
 * What the two travelling-salesman evaluators share: the identity
 * permutation they start from (std::iota), what it means for their result to
 * be a permutation of the nodes, and the cost of the closed tour that visits
 * the nodes in the permutation's order.
 */
module Tour {
  import opened TspGraph

  /** 0, 1, ..., n-1. */
  function Iota(n: nat): (s: seq<nat>)
    ensures |s| == n && forall i :: 0 <= i < n ==> s[i] == i
  {
    seq(n, (i: nat) => i)
  }

  /** A fresh vector of n entries filled by std::iota. */
  method IotaArray(n: nat) returns (a: array<nat>)
    ensures fresh(a) && a[..] == Iota(n)
  {
    a := new nat[n](i => i);
  }

  /** `p` holds each of 0 .. n-1 exactly once. */
  ghost predicate IsPermutation(p: seq<nat>, n: nat) {
    multiset(p) == multiset(Iota(n))
  }

  /** Every entry of `p` is a node of an n-node graph. */
  predicate InRange(p: seq<nat>, n: nat) {
    forall k :: 0 <= k < |p| ==> p[k] < n
  }

  /** Each of 0 .. n-1 occurs once in Iota(n), and nothing else occurs. */
  lemma {:induction false} IotaMultiplicity(n: nat, v: nat)
    ensures multiset(Iota(n))[v] == if v < n then 1 else 0
  {
    if n > 0 {
      IotaMultiplicity(n - 1, v);
      assert Iota(n) == Iota(n - 1) + [n - 1];
    }
  }

  /** A value at two positions occurs at least twice. */
  lemma TwoOccurrences(p: seq<nat>, a: nat, b: nat)
    requires a < b < |p| && p[a] == p[b]
    ensures multiset(p)[p[a]] >= 2
  {
    assert p == p[..a] + [p[a]] + p[a + 1..b] + [p[b]] + p[b + 1..];
  }

  /** A permutation of 0 .. n-1 has n entries, all below n, no two equal, and contains every node. */
  lemma PermutationFacts(p: seq<nat>, n: nat)
    requires IsPermutation(p, n)
    ensures |p| == n
    ensures InRange(p, n)
    ensures forall a, b :: 0 <= a < b < |p| ==> p[a] != p[b]
    ensures forall v: nat :: v < n ==> v in p
  {
    assert |p| == |multiset(p)| == |multiset(Iota(n))| == n;
    forall k | 0 <= k < |p|
      ensures p[k] < n
    {
      assert p[k] in multiset(p);
      IotaMultiplicity(n, p[k]);
    }
    forall a, b | 0 <= a < b < |p|
      ensures p[a] != p[b]
    {
      if p[a] == p[b] {
        TwoOccurrences(p, a, b);
        IotaMultiplicity(n, p[a]);
      }
    }
    forall v: nat | v < n
      ensures v in p
    {
      IotaMultiplicity(n, v);
      assert v in multiset(p);
    }
  }

  /** std::swap of the entries at positions x and y. */
  function Swap(p: seq<nat>, x: nat, y: nat): (r: seq<nat>)
    requires x < |p| && y < |p|
    ensures |r| == |p|
  {
    p[x := p[y]][y := p[x]]
  }

  /** A swap rearranges the entries and changes none; a pair (x, x) leaves the sequence as it is. */
  lemma SwapPermutes(p: seq<nat>, x: nat, y: nat)
    requires x < |p| && y < |p|
    ensures multiset(Swap(p, x, y)) == multiset(p)
    ensures x == y ==> Swap(p, x, y) == p
    ensures Swap(p, x, y)[x] == p[y] && Swap(p, x, y)[y] == p[x]
    ensures forall i :: 0 <= i < |p| && i != x && i != y ==> Swap(p, x, y)[i] == p[i]
  {
    if x != y {
      var q := p[x := p[y]];
      assert multiset(q) == multiset(p) - multiset{p[x]} + multiset{p[y]};
      assert multiset(q[y := p[x]]) == multiset(q) - multiset{q[y]} + multiset{p[x]};
    }
  }

  /** The cost of the open path p[0], p[1], ..., p[|p|-1]. */
  function PathCost(g: Graph, p: seq<nat>): real
    requires InRange(p, g.NumNodes())
    decreases |p|
  {
    if |p| <= 1 then 0.0
    else PathCost(g, p[..|p| - 1]) + g.GetDistance(p[|p| - 2], p[|p| - 1])
  }

  /** The cost of the closed tour: the open path plus the edge back from the last node to the first. */
  function TourCost(g: Graph, p: seq<nat>): real
    requires |p| >= 1 && InRange(p, g.NumNodes())
  {
    PathCost(g, p) + g.GetDistance(p[|p| - 1], p[0])
  }

  /** The path cost is its first edge plus the cost of the rest. */
  lemma {:induction false} PathCostFront(g: Graph, p: seq<nat>)
    requires |p| >= 2 && InRange(p, g.NumNodes())
    ensures PathCost(g, p) == g.GetDistance(p[0], p[1]) + PathCost(g, p[1..])
    decreases |p|
  {
    if |p| > 2 {
      var front := p[..|p| - 1];
      PathCostFront(g, front);
      assert front[1..] == p[1..][..|p[1..]| - 1];
    } else {
      assert p[1..][..0] == [];
    }
  }

  /** Starting the tour at its second node instead of its first does not change its cost. */
  lemma TourCostRotation(g: Graph, p: seq<nat>)
    requires |p| >= 1 && InRange(p, g.NumNodes())
    ensures InRange(p[1..] + [p[0]], g.NumNodes())
    ensures TourCost(g, p[1..] + [p[0]]) == TourCost(g, p)
  {
    if |p| >= 2 {
      var r := p[1..] + [p[0]];
      assert r[..|r| - 1] == p[1..];
      PathCostFront(g, p);
    }
  }

  /** Starting the tour at any of its nodes does not change its cost: a rotation by k places keeps it. */
  lemma {:induction false} TourCostRotationBy(g: Graph, p: seq<nat>, k: nat)
    requires |p| >= 1 && InRange(p, g.NumNodes()) && k < |p|
    ensures InRange(p[k..] + p[..k], g.NumNodes())
    ensures TourCost(g, p[k..] + p[..k]) == TourCost(g, p)
    decreases k
  {
    if k == 0 {
      assert p[0..] + p[..0] == p;
    } else {
      TourCostRotationBy(g, p, k - 1);
      var q := p[k - 1..] + p[..k - 1];
      TourCostRotation(g, q);
      assert q[1..] + [q[0]] == p[k..] + p[..k];
    }
  }

  /**
   * The closing cost loop of both evaluators: the edges between consecutive
   * entries of the permutation, then the edge from the last entry back to
   * the first.
   */
  method CyclicCost(g: Graph, permutation: array<nat>) returns (cost: real)
    requires permutation.Length >= 1 && InRange(permutation[..], g.NumNodes())
    ensures cost == TourCost(g, permutation[..])
  {
    cost := 0.0;
    var i := 0;
    while i < permutation.Length - 1
      invariant 0 <= i <= permutation.Length - 1
      invariant cost == PathCost(g, permutation[..i + 1])
    {
      assert permutation[..i + 2][..i + 1] == permutation[..i + 1];
      cost := cost + g.GetDistance(permutation[i], permutation[i + 1]);
      i := i + 1;
    }
    assert permutation[..i + 1] == permutation[..];
    cost := cost + g.GetDistance(permutation[permutation.Length - 1], permutation[0]);
  }

  /** A four-node instance: rows "0", "1 0", "2 4 0", "3 5 6 0" of the lower triangle. */
  function ExampleTokens(): seq<real> {
    [0.0, 1.0, 0.0, 2.0, 4.0, 0.0, 3.0, 5.0, 6.0, 0.0]
  }

  /** On the example instance the tour 0, 3, 2, 1 costs 3 + 6 + 4 + 1. */
  lemma ExampleTourCost()
    ensures Tri(4) <= |ExampleTokens()|
    ensures TourCost(Graph(LowerTriangle(4, ExampleTokens())), [0, 3, 2, 1]) == 14.0
  {
    var tokens := ExampleTokens();
    var m := LowerTriangle(4, tokens);
    LowerTriangleSymmetric(4, tokens);
    LowerTriangleEntry(4, tokens, 3, 0);
    LowerTriangleEntry(4, tokens, 3, 2);
    LowerTriangleEntry(4, tokens, 2, 1);
    LowerTriangleEntry(4, tokens, 1, 0);
    var g := Graph(m);
    assert m[3][0] == 3.0 && m[3][2] == 6.0 && m[2][1] == 4.0 && m[1][0] == 1.0;
    assert g.GetDistance(0, 3) == 3.0 && g.GetDistance(1, 0) == 1.0;
    var p: seq<nat> := [0, 3, 2, 1];
    assert p[..3] == [0, 3, 2] && [0, 3, 2][..2] == [0, 3] && [0, 3][..1] == [0];
    assert PathCost(g, [0, 3]) == 3.0;
    assert PathCost(g, [0, 3, 2]) == 9.0;
    assert PathCost(g, p) == 13.0;
  }
}
