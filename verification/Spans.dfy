/**
  Sorting of ranges by (start, end), and the "sort, then compare neighbours" overlap test that the
  payload validators and both text parsers share.

  `gap` selects the reading of a range: 0 for half-open index ranges, 1 for inclusive slot ranges.
  */
module Spans {

  datatype Span = Span(start: nat, end: nat)

  predicate Before(a: Span, b: Span) {
    a.start < b.start || (a.start == b.start && a.end <= b.end)
  }

  predicate Contains(a: Span, gap: nat, x: int) {
    a.start <= x < a.end + gap
  }

  predicate NonEmpty(a: Span, gap: nat) {
    a.start < a.end + gap
  }

  predicate Apart(a: Span, b: Span, gap: nat) {
    a.end + gap <= b.start || b.end + gap <= a.start
  }

  // ---------------------------------------------------------------------------
  // Stable sort
  // ---------------------------------------------------------------------------

  function Insert<T>(x: T, xs: seq<T>, key: T -> Span): (r: seq<T>)
    ensures multiset(r) == multiset([x] + xs)
  {
    if xs == [] || Before(key(x), key(xs[0])) then [x] + xs
    else
      assert [x] + xs == [x] + ([xs[0]] + xs[1..]);
      [xs[0]] + Insert(x, xs[1..], key)
  }

  /** `sort_by` on (start, end): the standard library's sort is stable. */
  function Sort<T>(xs: seq<T>, key: T -> Span): (r: seq<T>)
    ensures multiset(r) == multiset(xs)
    ensures |r| == |xs|
  {
    if xs == [] then []
    else
      assert xs == [xs[0]] + xs[1..];
      var r := Insert(xs[0], Sort(xs[1..], key), key);
      assert multiset(r) == multiset(xs);
      assert |multiset(r)| == |multiset(xs)|;
      r
  }

  predicate Ordered<T>(xs: seq<T>, key: T -> Span) {
    forall i | 0 <= i < |xs| - 1 :: Before(key(xs[i]), key(xs[i + 1]))
  }

  lemma {:induction false} InsertOrdered<T>(x: T, xs: seq<T>, key: T -> Span)
    requires Ordered(xs, key)
    ensures Ordered(Insert(x, xs, key), key)
    ensures Insert(x, xs, key)[0] == x || (xs != [] && Insert(x, xs, key)[0] == xs[0])
  {
    if xs != [] && !Before(key(x), key(xs[0])) {
      forall i | 0 <= i < |xs[1..]| - 1
        ensures Before(key(xs[1..][i]), key(xs[1..][i + 1]))
      {
        assert Before(key(xs[i + 1]), key(xs[i + 1 + 1]));
      }
      InsertOrdered(x, xs[1..], key);
    }
  }

  lemma {:induction false} SortOrdered<T>(xs: seq<T>, key: T -> Span)
    ensures Ordered(Sort(xs, key), key)
  {
    if xs != [] {
      SortOrdered(xs[1..], key);
      InsertOrdered(xs[0], Sort(xs[1..], key), key);
    }
  }

  lemma {:induction false} SameMembers<T>(a: seq<T>, b: seq<T>)
    requires multiset(a) == multiset(b)
    ensures forall x :: x in a <==> x in b
  {
    forall x ensures x in a <==> x in b {
      assert x in a <==> multiset(a)[x] > 0;
      assert x in b <==> multiset(b)[x] > 0;
    }
  }

  lemma {:induction false} SortMembers<T>(xs: seq<T>, key: T -> Span)
    ensures forall x :: x in Sort(xs, key) <==> x in xs
  {
    SameMembers(Sort(xs, key), xs);
  }

  // ---------------------------------------------------------------------------
  // Overlap
  // ---------------------------------------------------------------------------

  ghost predicate ApartFromAll<T>(x: T, xs: seq<T>, key: T -> Span, gap: nat) {
    forall y | y in xs :: Apart(key(x), key(y), gap)
  }

  ghost predicate PairwiseApart<T>(xs: seq<T>, key: T -> Span, gap: nat) {
    xs == [] || (ApartFromAll(xs[0], xs[1..], key, gap) && PairwiseApart(xs[1..], key, gap))
  }

  ghost predicate AllNonEmpty<T>(xs: seq<T>, key: T -> Span, gap: nat) {
    forall x | x in xs :: NonEmpty(key(x), gap)
  }

  /** No position in two ranges: the promise behind the neighbour test. */
  ghost predicate NoSharedIndex<T>(xs: seq<T>, key: T -> Span, gap: nat) {
    forall i, j, x: int | 0 <= i < j < |xs| :: !(Contains(key(xs[i]), gap, x) && Contains(key(xs[j]), gap, x))
  }

  predicate NeighboursApart<T>(xs: seq<T>, key: T -> Span, gap: nat) {
    forall i | 0 <= i < |xs| - 1 :: key(xs[i]).end + gap <= key(xs[i + 1]).start
  }

  lemma {:induction false} PairwiseApartAt<T>(xs: seq<T>, key: T -> Span, gap: nat)
    ensures PairwiseApart(xs, key, gap)
      <==> forall i, j | 0 <= i < j < |xs| :: Apart(key(xs[i]), key(xs[j]), gap)
  {
    if xs != [] {
      PairwiseApartAt(xs[1..], key, gap);
      if PairwiseApart(xs, key, gap) {
        forall i, j | 0 <= i < j < |xs| ensures Apart(key(xs[i]), key(xs[j]), gap) {
          if i == 0 {
            assert xs[j] == xs[1..][j - 1];
          } else {
            assert xs[i] == xs[1..][i - 1] && xs[j] == xs[1..][j - 1];
          }
        }
      }
    }
  }

  lemma {:induction false} PairwiseCons<T>(x: T, xs: seq<T>, key: T -> Span, gap: nat)
    ensures PairwiseApart([x] + xs, key, gap) <==> ApartFromAll(x, xs, key, gap) && PairwiseApart(xs, key, gap)
  {
    assert ([x] + xs)[1..] == xs;
  }

  lemma {:induction false} ApartFromAllCons<T>(x: T, y: T, ys: seq<T>, zs: seq<T>, key: T -> Span, gap: nat)
    requires forall z :: z in zs <==> z in [y] + ys
    ensures ApartFromAll(x, zs, key, gap) <==> Apart(key(x), key(y), gap) && ApartFromAll(x, ys, key, gap)
  {
    assert y in zs;
    assert forall z | z in ys :: z in zs;
  }

  lemma {:induction false} ApartFromAllSame<T>(x: T, ys: seq<T>, zs: seq<T>, key: T -> Span, gap: nat)
    requires forall z :: z in zs <==> z in ys
    ensures ApartFromAll(x, zs, key, gap) <==> ApartFromAll(x, ys, key, gap)
  {
  }

  lemma {:induction false} InsertPairwise<T>(x: T, xs: seq<T>, key: T -> Span, gap: nat)
    ensures PairwiseApart(Insert(x, xs, key), key, gap) <==> PairwiseApart([x] + xs, key, gap)
  {
    assert ([x] + xs)[1..] == xs;
    if xs != [] && !Before(key(x), key(xs[0])) {
      var x0, rest := xs[0], xs[1..];
      var tail := Insert(x, rest, key);
      InsertPairwise(x, rest, key, gap);
      PairwiseCons(x, rest, key, gap);
      PairwiseCons(x0, tail, key, gap);
      SameMembers(tail, [x] + rest);
      ApartFromAllCons(x0, x, rest, tail, key, gap);
      assert xs == [x0] + rest;
      PairwiseCons(x, xs, key, gap);
      ApartFromAllCons(x, x0, rest, xs, key, gap);
    }
  }

  lemma {:induction false} SortPairwise<T>(xs: seq<T>, key: T -> Span, gap: nat)
    ensures PairwiseApart(Sort(xs, key), key, gap) <==> PairwiseApart(xs, key, gap)
  {
    if xs != [] {
      var tail := Sort(xs[1..], key);
      SortPairwise(xs[1..], key, gap);
      SortMembers(xs[1..], key);
      InsertPairwise(xs[0], tail, key, gap);
      PairwiseCons(xs[0], tail, key, gap);
      ApartFromAllSame(xs[0], xs[1..], tail, key, gap);
    }
  }

  /** The neighbour test chains: it orders every pair, not only adjacent ones. */
  lemma {:induction false} NeighboursChain<T>(xs: seq<T>, key: T -> Span, gap: nat, i: nat, j: nat)
    requires NeighboursApart(xs, key, gap) && AllNonEmpty(xs, key, gap)
    requires i < j < |xs|
    ensures key(xs[i]).end + gap <= key(xs[j]).start
    decreases j
  {
    if j > i + 1 {
      NeighboursChain(xs, key, gap, i, j - 1);
      assert xs[j - 1] in xs && xs[j - 1 + 1] == xs[j];
    } else {
      assert xs[i + 1] == xs[j];
    }
  }

  lemma OrderedNeighbours<T>(xs: seq<T>, key: T -> Span, gap: nat)
    requires Ordered(xs, key) && AllNonEmpty(xs, key, gap)
    ensures NeighboursApart(xs, key, gap) <==> PairwiseApart(xs, key, gap)
  {
    PairwiseApartAt(xs, key, gap);
    if NeighboursApart(xs, key, gap) {
      forall i, j | 0 <= i < j < |xs| ensures Apart(key(xs[i]), key(xs[j]), gap) {
        NeighboursChain(xs, key, gap, i, j);
      }
    } else {
      var i :| 0 <= i < |xs| - 1 && !(key(xs[i]).end + gap <= key(xs[i + 1]).start);
      assert xs[i] in xs && xs[i + 1] in xs;
      assert Before(key(xs[i]), key(xs[i + 1]));
      assert !Apart(key(xs[i]), key(xs[i + 1]), gap);
    }
  }

  lemma PairwiseApartIsNoSharedIndex<T>(xs: seq<T>, key: T -> Span, gap: nat)
    requires AllNonEmpty(xs, key, gap)
    ensures PairwiseApart(xs, key, gap) <==> NoSharedIndex(xs, key, gap)
  {
    PairwiseApartAt(xs, key, gap);
    if NoSharedIndex(xs, key, gap) {
      forall i, j | 0 <= i < j < |xs| ensures Apart(key(xs[i]), key(xs[j]), gap) {
        var a, b := key(xs[i]), key(xs[j]);
        assert xs[i] in xs && xs[j] in xs;
        var x := if a.start < b.start then b.start else a.start;
        assert !(Contains(a, gap, x) && Contains(b, gap, x));
      }
    }
  }

  /**
    Sorting and comparing neighbours accepts exactly the lists in which no two ranges share a
    position, for any number of non-empty ranges.
    */
  lemma {:induction false} SortedNeighbourTest<T>(xs: seq<T>, key: T -> Span, gap: nat)
    requires AllNonEmpty(xs, key, gap)
    ensures AllNonEmpty(Sort(xs, key), key, gap)
    ensures NeighboursApart(Sort(xs, key), key, gap) <==> NoSharedIndex(xs, key, gap)
    ensures NeighboursApart(Sort(xs, key), key, gap) <==> PairwiseApart(xs, key, gap)
  {
    SortOrdered(xs, key);
    assert AllNonEmpty(Sort(xs, key), key, gap) by { SortMembers(xs, key); }
    OrderedNeighbours(Sort(xs, key), key, gap);
    SortPairwise(xs, key, gap);
    PairwiseApartIsNoSharedIndex(xs, key, gap);
  }

  function Itself(s: Span): Span {
    s
  }

  /** The check itself: sort a copy, then walk it with the previous range at hand. */
  method FindOverlap(ranges: seq<Span>, gap: nat) returns (overlap: bool)
    requires AllNonEmpty(ranges, Itself, gap)
    ensures overlap <==> !NoSharedIndex(ranges, Itself, gap)
    ensures overlap <==> !PairwiseApart(ranges, Itself, gap)
  {
    SortedNeighbourTest(ranges, Itself, gap);
    if |ranges| <= 1 {
      return false;
    }
    var sorted := Sort(ranges, Itself);
    var last := sorted[0];
    for i := 1 to |sorted|
      invariant last == sorted[i - 1]
      invariant forall k | 0 <= k < i - 1 :: sorted[k].end + gap <= sorted[k + 1].start
    {
      if sorted[i].start < last.end + gap {
        assert sorted[i] == sorted[i - 1 + 1];
        return true;
      }
      last := sorted[i];
    }
    return false;
  }
}
