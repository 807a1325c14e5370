/**
 * The population: a std::multiset of scored individuals ordered by objective
 * value, modelled as a sequence kept in ascending order.  Inserting an entry
 * puts it after every entry it is equivalent to (the upper bound), which is
 * where std::multiset::insert puts it.
 */
module Population {
  import opened Scoring

  /** Entries ascend by objective value. */
  ghost predicate Sorted<I>(s: seq<Scored<I>>) {
    forall i, j :: 0 <= i < j < |s| ==> s[i].objvalue <= s[j].objvalue
  }

  /** The position std::multiset::insert chooses for `x`: past the leading entries that are not greater than `x`. */
  function UpperBound<I>(s: seq<Scored<I>>, x: Scored<I>): (k: nat)
    ensures k <= |s|
  {
    if s == [] || x.Less(s[0]) then 0 else 1 + UpperBound(s[1..], x)
  }

  /** In an ordered sequence the upper bound splits the entries not greater than `x` from those greater than `x`. */
  lemma {:induction false} UpperBoundSplits<I>(s: seq<Scored<I>>, x: Scored<I>)
    requires Sorted(s)
    ensures forall i :: 0 <= i < UpperBound(s, x) ==> s[i].objvalue <= x.objvalue
    ensures forall i :: UpperBound(s, x) <= i < |s| ==> x.objvalue < s[i].objvalue
    decreases |s|
  {
    if s != [] && !x.Less(s[0]) {
      UpperBoundSplits(s[1..], x);
    }
  }

  /** std::multiset::insert. */
  function Insert<I>(s: seq<Scored<I>>, x: Scored<I>): (r: seq<Scored<I>>)
    ensures |r| == |s| + 1
  {
    var k := UpperBound(s, x);
    s[..k] + [x] + s[k..]
  }

  /** Where the entries of `s` and `x` sit in Insert(s, x). */
  lemma InsertIndexing<I>(s: seq<Scored<I>>, x: Scored<I>)
    ensures var k := UpperBound(s, x);
      && |Insert(s, x)| == |s| + 1
      && Insert(s, x)[k] == x
      && (forall i :: 0 <= i < k ==> Insert(s, x)[i] == s[i])
      && (forall i :: k < i <= |s| ==> Insert(s, x)[i] == s[i - 1])
  {
  }

  /** Inserting keeps the entries in ascending order. */
  lemma InsertSorted<I>(s: seq<Scored<I>>, x: Scored<I>)
    requires Sorted(s)
    ensures Sorted(Insert(s, x))
  {
    var k := UpperBound(s, x);
    var r := Insert(s, x);
    InsertIndexing(s, x);
    UpperBoundSplits(s, x);
    forall i, j | 0 <= i < j < |r|
      ensures r[i].objvalue <= r[j].objvalue
    {
      if j < k {
        assert r[i] == s[i] && r[j] == s[j];
      } else if j == k {
        assert r[i] == s[i];
      } else if i < k {
        assert r[i] == s[i] && r[j] == s[j - 1];
      } else if i == k {
        assert r[j] == s[j - 1];
      } else {
        assert r[i] == s[i - 1] && r[j] == s[j - 1];
      }
    }
  }

  /** Inserting adds exactly `x`. */
  lemma InsertMultiset<I>(s: seq<Scored<I>>, x: Scored<I>)
    ensures |Insert(s, x)| == |s| + 1
    ensures multiset(Insert(s, x)) == multiset(s) + multiset{x}
  {
    var k := UpperBound(s, x);
    var before, after := s[..k], s[k..];
    assert s == before + after;
    assert Insert(s, x) == before + [x] + after;
    assert multiset(s) == multiset(before) + multiset(after);
    assert multiset(before + [x] + after) == multiset(before) + multiset{x} + multiset(after);
  }

  /** Inserting leaves every entry with the same objective value as `x` where it was, ahead of `x`. */
  lemma InsertStable<I>(s: seq<Scored<I>>, x: Scored<I>)
    requires Sorted(s)
    ensures forall i :: 0 <= i < |s| && s[i].objvalue == x.objvalue ==> Insert(s, x)[i] == s[i]
  {
    InsertIndexing(s, x);
    UpperBoundSplits(s, x);
  }

  /** Inserting keeps the order, adds exactly `x`, and places it after the entries equivalent to it. */
  lemma InsertProperties<I>(s: seq<Scored<I>>, x: Scored<I>)
    requires Sorted(s)
    ensures Sorted(Insert(s, x))
    ensures |Insert(s, x)| == |s| + 1
    ensures multiset(Insert(s, x)) == multiset(s) + multiset{x}
    ensures forall i :: 0 <= i < |s| && s[i].objvalue == x.objvalue ==> Insert(s, x)[i] == s[i]
  {
    InsertSorted(s, x);
    InsertMultiset(s, x);
    InsertStable(s, x);
  }

  /** A non-empty sequence holds its prefix and its last entry. */
  lemma MultisetOfLast<T>(xs: seq<T>)
    requires xs != []
    ensures multiset(xs) == multiset(xs[..|xs| - 1]) + multiset{xs[|xs| - 1]}
  {
    assert xs == xs[..|xs| - 1] + [xs[|xs| - 1]];
  }

  /** Inserting the entries of `xs` one after the other, first to last. */
  function InsertAll<I>(s: seq<Scored<I>>, xs: seq<Scored<I>>): (r: seq<Scored<I>>)
    ensures |r| == |s| + |xs|
    decreases |xs|
  {
    if xs == [] then s
    else Insert(InsertAll(s, xs[..|xs| - 1]), xs[|xs| - 1])
  }

  /** The fold keeps an ordered sequence ordered. */
  lemma {:induction false} InsertAllSorted<I>(s: seq<Scored<I>>, xs: seq<Scored<I>>)
    requires Sorted(s)
    ensures Sorted(InsertAll(s, xs))
    decreases |xs|
  {
    if xs != [] {
      InsertAllSorted(s, xs[..|xs| - 1]);
      InsertSorted(InsertAll(s, xs[..|xs| - 1]), xs[|xs| - 1]);
    }
  }

  /** The fold loses and invents nothing: its result holds exactly the entries of `s` and of `xs`. */
  lemma {:induction false} InsertAllMultiset<I>(s: seq<Scored<I>>, xs: seq<Scored<I>>)
    ensures multiset(InsertAll(s, xs)) == multiset(s) + multiset(xs)
    decreases |xs|
  {
    if xs != [] {
      var front := InsertAll(s, xs[..|xs| - 1]);
      InsertAllMultiset(s, xs[..|xs| - 1]);
      InsertMultiset(front, xs[|xs| - 1]);
      MultisetOfLast(xs);
    }
  }

  /** Folding in `xs` and then `ys` is folding in `xs + ys`. */
  lemma {:induction false} InsertAllAppend<I>(s: seq<Scored<I>>, xs: seq<Scored<I>>, ys: seq<Scored<I>>)
    ensures InsertAll(InsertAll(s, xs), ys) == InsertAll(s, xs + ys)
    decreases |ys|
  {
    if ys == [] {
      assert xs + ys == xs;
    } else {
      var both := xs + ys;
      InsertAllAppend(s, xs, ys[..|ys| - 1]);
      assert both[..|both| - 1] == xs + ys[..|ys| - 1];
      assert both[|both| - 1] == ys[|ys| - 1];
    }
  }

  /** One more insertion extends the fold by one step. */
  lemma InsertAllStep<I>(s: seq<Scored<I>>, xs: seq<Scored<I>>, i: nat)
    requires i < |xs|
    ensures InsertAll(s, xs[..i + 1]) == Insert(InsertAll(s, xs[..i]), xs[i])
  {
    assert xs[..i + 1][..i] == xs[..i];
  }

  /** The first entry of an ordered population has the least objective value of all its entries. */
  lemma FirstIsBest<I>(s: seq<Scored<I>>, x: Scored<I>)
    requires Sorted(s) && x in multiset(s)
    ensures |s| > 0 && s[0].objvalue <= x.objvalue
  {
    assert x in s;
    var i :| 0 <= i < |s| && s[i] == x;
  }
}
