/**
 * The travelling-salesman example's graph: a square matrix of distances, and
 * the reader of a lower-triangular instance.  The instance is given already
 * split into its leading node count (None when it does not parse as an
 * unsigned 32-bit number) and the distance tokens after it, in file order;
 * a read that would call _Exit returns a Failure instead.
 */
module TspGraph {
  import opened Basics

  /** Every row has as many entries as there are rows. */
  predicate IsSquare(m: seq<seq<real>>) {
    forall i :: 0 <= i < |m| ==> |m[i]| == |m|
  }

  type SquareMatrix = m: seq<seq<real>> | IsSquare(m)

  /** A graph given by its distance matrix. */
  datatype Graph = Graph(distance: SquareMatrix) {
    /** num_nodes: the number of rows, which is also the length of every row. */
    function NumNodes(): (n: nat)
      ensures n == |distance|
      ensures forall i :: 0 <= i < n ==> |distance[i]| == n
    {
      |distance|
    }

    /** get_distance: defined for two nodes of the graph only. */
    function GetDistance(i: nat, j: nat): (d: real)
      requires i < NumNodes() && j < NumNodes()
      ensures d == distance[i][j]
    {
      distance[i][j]
    }

    /** The distance from i to j equals the distance from j to i. */
    ghost predicate Symmetric() {
      forall i, j :: 0 <= i < |distance| && 0 <= j < |distance| ==> distance[i][j] == distance[j][i]
    }
  }

  /** The matrix constructor: accepts a square matrix only and stores it as given. */
  function FromMatrix(m: seq<seq<real>>): (g: Graph)
    requires IsSquare(m)
    ensures g.distance == m && g.NumNodes() == |m|
  {
    Graph(m)
  }

  /** Why reading stops. */
  datatype ReadError =
    | NodeCountUnreadable
    | NoNodes
    | DistanceUnreadable(row: nat, col: nat)

  /** 0 + 1 + ... + k: the number of lower-triangle cells in rows 0 .. k-1. */
  function Tri(k: nat): nat {
    if k == 0 then 0 else Tri(k - 1) + k
  }

  /** The closed form n(n+1)/2 of the cell count. */
  lemma {:induction false} TriClosedForm(n: nat)
    ensures 2 * Tri(n) == n * (n + 1)
  {
    if n > 0 {
      TriClosedForm(n - 1);
      assert n * (n + 1) == (n - 1) * n + 2 * n;
    }
  }

  /** Row i starts after every cell of the earlier rows. */
  lemma {:induction false} TriGrows(a: nat, b: nat)
    requires a <= b
    ensures Tri(a) + a <= Tri(b) + a <= Tri(b) + b
    ensures a < b ==> Tri(a) + a < Tri(b)
    decreases b - a
  {
    if a < b {
      TriGrows(a, b - 1);
    }
  }

  /** Cell (i, j), j <= i, is read as the token at position Tri(i) + j. */
  function TokenFor(tokens: seq<real>, i: nat, j: nat): real
    requires j <= i && Tri(i) + j < |tokens|
  {
    tokens[Tri(i) + j]
  }

  /** Cell (a, b) has been written once rows 0 .. i-1 and cells 0 .. j-1 of row i have been read. */
  predicate Written(a: nat, b: nat, i: nat, j: nat) {
    var hi := if a < b then b else a;
    var lo := if a < b then a else b;
    hi < i || (hi == i && lo < j)
  }

  /** The n-by-n matrix after reading rows 0 .. i-1 and cells 0 .. j-1 of row i: every written cell holds its token, mirrored, and the others are still 0. */
  function Filled(n: nat, tokens: seq<real>, i: nat, j: nat): (m: SquareMatrix)
    requires i <= n && j <= i + 1 && Tri(i) + j <= |tokens|
    requires i == n ==> j == 0
    ensures |m| == n
  {
    seq(n, (a: nat) requires a < n =>
      seq(n, (b: nat) requires b < n =>
        if !Written(a, b, i, j) then 0.0
        else if b <= a then (FilledBound(a, b, i, j); TokenFor(tokens, a, b))
        else (FilledBound(b, a, i, j); TokenFor(tokens, b, a))))
  }

  /** A written cell's token lies within what has been read. */
  lemma FilledBound(hi: nat, lo: nat, i: nat, j: nat)
    requires lo <= hi && Written(hi, lo, i, j)
    ensures Tri(hi) + lo < Tri(i) + j
  {
    if hi < i {
      TriGrows(hi, i);
    }
  }

  /** Before the first read the matrix is all zeros. */
  lemma NothingWrittenYet(n: nat, tokens: seq<real>)
    ensures seq(n, _ => seq(n, _ => 0.0)) == Filled(n, tokens, 0, 0)
  {
    var zero: seq<seq<real>> := seq(n, _ => seq(n, _ => 0.0));
    var m := Filled(n, tokens, 0, 0);
    forall a | 0 <= a < n
      ensures zero[a] == m[a]
    {
      assert forall b :: 0 <= b < n ==> !Written(a, b, 0, 0);
    }
  }

  /** The matrix the reader builds from a complete lower triangle of n rows. */
  function LowerTriangle(n: nat, tokens: seq<real>): (m: SquareMatrix)
    requires Tri(n) <= |tokens|
    ensures |m| == n
  {
    Filled(n, tokens, n, 0)
  }

  /** Reading cell (i, j) writes it and its mirror. */
  lemma FilledStep(n: nat, tokens: seq<real>, i: nat, j: nat)
    requires i < n && j <= i && Tri(i) + j < |tokens|
    ensures var m := Filled(n, tokens, i, j);
      var d := tokens[Tri(i) + j];
      m[i := m[i][j := d]][j := m[i := m[i][j := d]][j][i := d]] == Filled(n, tokens, i, j + 1)
  {
    var m := Filled(n, tokens, i, j);
    var d := tokens[Tri(i) + j];
    var m1 := m[i := m[i][j := d]];
    var m2 := m1[j := m1[j][i := d]];
    var next := Filled(n, tokens, i, j + 1);
    forall a | 0 <= a < n
      ensures m2[a] == next[a]
    {
      forall b | 0 <= b < n
        ensures m2[a][b] == next[a][b]
      {
        if (a == i && b == j) || (a == j && b == i) {
        } else {
          assert Written(a, b, i, j + 1) == Written(a, b, i, j);
        }
      }
    }
  }

  /** Finishing row i is starting row i + 1. */
  lemma FilledRowDone(n: nat, tokens: seq<real>, i: nat)
    requires i < n && Tri(i + 1) <= |tokens|
    ensures Filled(n, tokens, i, i + 1) == Filled(n, tokens, i + 1, 0)
  {
    var m := Filled(n, tokens, i, i + 1);
    var next := Filled(n, tokens, i + 1, 0);
    forall a | 0 <= a < n
      ensures m[a] == next[a]
    {
      forall b | 0 <= b < n
        ensures m[a][b] == next[a][b]
      {
        assert Written(a, b, i, i + 1) == Written(a, b, i + 1, 0);
      }
    }
  }

  /**
   * Graph(filename): reads the node count, rejects a missing or zero count,
   * then reads rows 0 .. n-1 of the lower triangle, row i holding i + 1
   * distances, writing each one at (i, j) and (j, i).  Stops at the first
   * distance that cannot be read.
   */
  method ReadLowerTriangular(nodeCount: Option<uint32>, tokens: seq<real>) returns (r: Result<Graph, ReadError>)
    ensures nodeCount.None? ==> r == Failure(NodeCountUnreadable)
    ensures nodeCount == Some(0) ==> r == Failure(NoNodes)
    ensures nodeCount.Some? && nodeCount.value > 0 && |tokens| < Tri(nodeCount.value) ==>
      && r.Failure? && r.error.DistanceUnreadable?
      && r.error.col <= r.error.row < nodeCount.value
      && Tri(r.error.row) + r.error.col == |tokens|
    ensures nodeCount.Some? && nodeCount.value > 0 && Tri(nodeCount.value) <= |tokens| ==>
      r == Success(Graph(LowerTriangle(nodeCount.value, tokens)))
  {
    if nodeCount.None? {
      return Failure(NodeCountUnreadable);
    }
    var n := nodeCount.value;
    if n == 0 {
      return Failure(NoNodes);
    }
    var distance: SquareMatrix := seq(n, _ => seq(n, _ => 0.0));
    NothingWrittenYet(n, tokens);
    var nread: nat := 0;
    var i: nat := 0;
    while i < n
      invariant i <= n
      invariant nread == Tri(i) <= |tokens|
      invariant distance == Filled(n, tokens, i, 0)
    {
      var j: nat := 0;
      while j <= i
        invariant j <= i + 1
        invariant nread == Tri(i) + j <= |tokens|
        invariant distance == Filled(n, tokens, i, j)
      {
        if nread >= |tokens| {
          TriGrows(i, n);
          return Failure(DistanceUnreadable(i, j));
        }
        var dist := tokens[nread];
        FilledStep(n, tokens, i, j);
        distance := distance[i := distance[i][j := dist]];
        distance := distance[j := distance[j][i := dist]];
        nread := nread + 1;
        j := j + 1;
      }
      FilledRowDone(n, tokens, i);
      i := i + 1;
    }
    // The closing count check compares nread with n(n+1)/2; see CountCheckPasses.
    var count: nat := n;
    TriClosedForm(count);
    assert nread == count * (count + 1) / 2;
    return Success(Graph(distance));
  }

  /** The count check after the loops never fails: exactly n(n+1)/2 distances have been read. */
  lemma CountCheckPasses(n: nat)
    ensures Tri(n) == n * (n + 1) / 2
  {
    TriClosedForm(n);
  }

  /** The count check as the code computes it, in unsigned 32-bit arithmetic, with nread counted the same way. */
  function CountCheckAsWritten(n: uint32, nread: nat): bool {
    var count: nat := n;
    var expected := (count * ((count + 1) % 0x1_0000_0000)) % 0x1_0000_0000 / 2;
    nread % 0x1_0000_0000 == expected
  }

  /** With 65536 nodes the product n(n+1) wraps around: a complete read of all 2147516416 distances is rejected. */
  lemma CountCheckAsWrittenRejectsCompleteRead()
    ensures Tri(65536) == 2147516416
    ensures !CountCheckAsWritten(65536, Tri(65536))
  {
    CountCheckPasses(65536);
  }

  /** The reader's matrix is symmetric. */
  lemma LowerTriangleSymmetric(n: nat, tokens: seq<real>)
    requires Tri(n) <= |tokens|
    ensures Graph(LowerTriangle(n, tokens)).Symmetric()
  {
    var m := LowerTriangle(n, tokens);
    forall a, b | 0 <= a < n && 0 <= b < n
      ensures m[a][b] == m[b][a]
    {
      assert Written(a, b, n, 0) && Written(b, a, n, 0);
    }
  }

  /** For j <= i, distance (i, j) is the token number i(i+1)/2 + j, counting row by row. */
  lemma LowerTriangleEntry(n: nat, tokens: seq<real>, i: nat, j: nat)
    requires Tri(n) <= |tokens| && j <= i < n
    ensures Tri(i) + j < |tokens| && Tri(i) == i * (i + 1) / 2
    ensures LowerTriangle(n, tokens)[i][j] == tokens[i * (i + 1) / 2 + j]
  {
    TriGrows(i, n);
    CountCheckPasses(i);
    assert Written(i, j, n, 0);
  }

  /** Tokens after the n(n+1)/2 distances are never read. */
  lemma TrailingTokensIgnored(n: nat, tokens: seq<real>, extra: seq<real>)
    requires Tri(n) <= |tokens|
    ensures LowerTriangle(n, tokens + extra) == LowerTriangle(n, tokens)
  {
    var m := LowerTriangle(n, tokens + extra);
    var m' := LowerTriangle(n, tokens);
    forall a | 0 <= a < n
      ensures m[a] == m'[a]
    {
      forall b | 0 <= b < n
        ensures m[a][b] == m'[a][b]
      {
        if b <= a {
          FilledBound(a, b, n, 0);
        } else {
          FilledBound(b, a, n, 0);
        }
      }
    }
  }
}
