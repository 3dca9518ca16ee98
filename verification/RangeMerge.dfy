/**
  Merging slot ranges for display: sort, then join what overlaps or touches. The result is a normal
  form: the only sorted list of separated ranges that covers the same slots.
  */
module RangeMerge {
  import opened Prelude
  import opened Spans

  predicate InU128(r: Span) {
    r.start <= U128_MAX && r.end <= U128_MAX
  }

  /** `r` starts inside the range `last` or right behind it. */
  predicate Touches(last: Span, r: Span) {
    r.start <= if last.end < U128_MAX then last.end + 1 else U128_MAX
  }

  function Extend(last: Span, r: Span): Span {
    Span(last.start, if last.end > r.end then last.end else r.end)
  }

  function AddRange(out: seq<Span>, r: Span): seq<Span> {
    if out != [] && Touches(out[|out| - 1], r) then out[..|out| - 1] + [Extend(out[|out| - 1], r)] else out + [r]
  }

  function MergeSorted(sorted: seq<Span>): seq<Span> {
    if sorted == [] then [] else AddRange(MergeSorted(sorted[..|sorted| - 1]), sorted[|sorted| - 1])
  }

  function Merged(ranges: seq<Span>): seq<Span> {
    MergeSorted(Sort(ranges, Itself))
  }

  lemma MergePush(sorted: seq<Span>, i: nat)
    requires i < |sorted|
    ensures MergeSorted(sorted[..i + 1]) == AddRange(MergeSorted(sorted[..i]), sorted[i])
  {
    assert sorted[..i + 1][..i] == sorted[..i];
  }

  method MergeRanges(ranges: seq<Span>) returns (out: seq<Span>)
    requires forall r | r in ranges :: InU128(r)
    ensures out == Merged(ranges)
  {
    var sorted := Sort(ranges, Itself);
    out := [];
    assert MergeSorted(sorted[..0]) == [];
    hide MergeSorted, Sort;
    for i := 0 to |sorted|
      invariant out == MergeSorted(sorted[..i])
    {
      MergePush(sorted, i);
      var start, end := sorted[i].start, sorted[i].end;
      if |out| == 0 {
        out := out + [Span(start, end)];
        continue;
      }
      var last := out[|out| - 1];
      if start <= (if last.end < U128_MAX then last.end + 1 else U128_MAX) {
        out := out[..|out| - 1] + [Span(last.start, if last.end > end then last.end else end)];
        continue;
      }
      out := out + [Span(start, end)];
    }
    assert sorted[..|sorted|] == sorted;
  }

  // ---------------------------------------------------------------------------
  // The same slots
  // ---------------------------------------------------------------------------

  ghost predicate CoversSlot(rs: seq<Span>, x: int) {
    exists r | r in rs :: Contains(r, 1, x)
  }

  lemma CoversPush(rs: seq<Span>, r: Span, x: int)
    ensures CoversSlot(rs + [r], x) <==> CoversSlot(rs, x) || Contains(r, 1, x)
  {
    if CoversSlot(rs, x) {
      var q :| q in rs && Contains(q, 1, x);
      assert q in rs + [r];
    }
    assert r in rs + [r];
  }

  /** Every range so far starts no later than `r`; the list is in order of start. */
  predicate StartsUpTo(out: seq<Span>, bound: nat) {
    forall q | q in out :: q.start <= bound
  }

  lemma AddCovers(out: seq<Span>, r: Span, x: int)
    requires StartsUpTo(out, r.start) && InU128(r) && forall q | q in out :: InU128(q)
    ensures CoversSlot(AddRange(out, r), x) <==> CoversSlot(out, x) || Contains(r, 1, x)
    ensures StartsUpTo(AddRange(out, r), r.start) && forall q | q in AddRange(out, r) :: InU128(q)
  {
    if out != [] && Touches(out[|out| - 1], r) {
      var init, last := out[..|out| - 1], out[|out| - 1];
      assert out == init + [last] && last in out;
      assert forall q | q in init :: q in out;
      CoversPush(init, last, x);
      CoversPush(init, Extend(last, r), x);
      assert Contains(Extend(last, r), 1, x) <==> Contains(last, 1, x) || Contains(r, 1, x);
    } else {
      CoversPush(out, r, x);
    }
  }

  lemma {:induction false} OrderedStarts(xs: seq<Span>, i: nat, j: nat)
    requires Ordered(xs, Itself) && i <= j < |xs|
    ensures xs[i].start <= xs[j].start
    decreases j
  {
    if i < j {
      OrderedStarts(xs, i, j - 1);
      assert Before(Itself(xs[j - 1]), Itself(xs[j - 1 + 1]));
    }
  }

  lemma OrderedInit(sorted: seq<Span>)
    requires Ordered(sorted, Itself) && sorted != []
    ensures Ordered(sorted[..|sorted| - 1], Itself)
    ensures forall r | r in sorted[..|sorted| - 1] :: r in sorted
  {
    var init := sorted[..|sorted| - 1];
    hide Before;
    forall i | 0 <= i < |init| - 1 ensures Before(Itself(init[i]), Itself(init[i + 1])) {
      assert Before(Itself(sorted[i]), Itself(sorted[i + 1]));
    }
  }

  lemma {:induction false} MergeCovers(sorted: seq<Span>, x: int)
    requires Ordered(sorted, Itself) && forall r | r in sorted :: InU128(r)
    ensures CoversSlot(MergeSorted(sorted), x) <==> CoversSlot(sorted, x)
    ensures sorted != [] ==> StartsUpTo(MergeSorted(sorted), sorted[|sorted| - 1].start)
    ensures forall q | q in MergeSorted(sorted) :: InU128(q)
    decreases |sorted|
  {
    if sorted != [] {
      var n := |sorted| - 1;
      var init, r := sorted[..n], sorted[n];
      hide CoversSlot, AddRange, Before, InU128;
      OrderedInit(sorted);
      MergeCovers(init, x);
      if n > 0 {
        OrderedStarts(sorted, n - 1, n);
      }
      assert r in sorted && sorted == init + [r];
      AddCovers(MergeSorted(init), r, x);
      CoversPush(init, r, x);
    }
  }

  /** Merging covers the same slots, for any input at all. */
  lemma MergedCovers(ranges: seq<Span>, x: int)
    requires forall r | r in ranges :: InU128(r)
    ensures CoversSlot(Merged(ranges), x) <==> CoversSlot(ranges, x)
  {
    SortOrdered(ranges, Itself);
    SortMembers(ranges, Itself);
    MergeCovers(Sort(ranges, Itself), x);
  }

  // ---------------------------------------------------------------------------
  // The normal form
  // ---------------------------------------------------------------------------

  /** Non-empty ranges in order, with at least one slot between any two. */
  predicate Normal(rs: seq<Span>) {
    && (forall i | 0 <= i < |rs| :: rs[i].start <= rs[i].end)
    && (forall i, j | 0 <= i < j < |rs| :: rs[i].end + 1 < rs[j].start)
  }

  lemma AddKeepsNormal(out: seq<Span>, r: Span)
    requires Normal(out) && r.start <= r.end <= U128_MAX && StartsUpTo(out, r.start)
    requires forall q | q in out :: InU128(q)
    ensures Normal(AddRange(out, r))
  {
    if out != [] {
      var n := |out| - 1;
      assert out[n] in out;
      if !Touches(out[n], r) {
        assert forall i | 0 <= i < n :: out[i].end + 1 < out[n].start;
      }
    }
  }

  lemma {:induction false} MergeNormal(sorted: seq<Span>)
    requires Ordered(sorted, Itself) && forall r | r in sorted :: r.start <= r.end <= U128_MAX
    ensures Normal(MergeSorted(sorted))
    decreases |sorted|
  {
    if sorted != [] {
      var n := |sorted| - 1;
      var init, r := sorted[..n], sorted[n];
      assert forall i | 0 <= i < |init| - 1 :: Before(Itself(init[i]), Itself(init[i + 1])) by {
        assert forall i | 0 <= i < |init| - 1 :: Before(Itself(sorted[i]), Itself(sorted[i + 1]));
      }
      assert r in sorted && forall q | q in init :: q in sorted;
      MergeNormal(init);
      MergeCovers(init, 0);
      if n > 0 {
        OrderedStarts(sorted, n - 1, n);
      }
      AddKeepsNormal(MergeSorted(init), r);
    }
  }

  lemma MergedNormal(ranges: seq<Span>)
    requires forall r | r in ranges :: r.start <= r.end <= U128_MAX
    ensures Normal(Merged(ranges))
  {
    SortOrdered(ranges, Itself);
    SortMembers(ranges, Itself);
    MergeNormal(Sort(ranges, Itself));
  }

  /** A slot the first range covers, and the first slot it does not. */
  lemma FirstRangeEnds(rs: seq<Span>)
    requires Normal(rs) && rs != []
    ensures CoversSlot(rs, rs[0].start) && CoversSlot(rs, rs[0].end) && !CoversSlot(rs, rs[0].end + 1)
    ensures forall x: int | CoversSlot(rs, x) :: x >= rs[0].start
    ensures forall x: int | rs[0].start <= x <= rs[0].end :: CoversSlot(rs, x)
    ensures forall x: int :: CoversSlot(rs[1..], x) <==> CoversSlot(rs, x) && x > rs[0].end
  {
    assert rs[0] in rs && Contains(rs[0], 1, rs[0].start) && Contains(rs[0], 1, rs[0].end);
    forall r | r in rs ensures r == rs[0] || r.start > rs[0].end + 1 {
      var i :| 0 <= i < |rs| && rs[i] == r;
    }
    forall x: int ensures CoversSlot(rs[1..], x) <==> CoversSlot(rs, x) && x > rs[0].end {
      if CoversSlot(rs[1..], x) {
        var r :| r in rs[1..] && Contains(r, 1, x);
        var i :| 0 <= i < |rs[1..]| && rs[1..][i] == r;
        assert rs[i + 1] == r && r in rs;
      }
      if CoversSlot(rs, x) && x > rs[0].end {
        var r :| r in rs && Contains(r, 1, x);
        var i :| 0 <= i < |rs| && rs[i] == r;
        assert rs[1..][i - 1] == r;
      }
    }
  }

  lemma FirstRangeDetermined(a: seq<Span>, b: seq<Span>)
    requires Normal(a) && Normal(b) && a != [] && b != []
    requires forall x: int :: CoversSlot(a, x) <==> CoversSlot(b, x)
    ensures a[0] == b[0]
    ensures forall x: int :: CoversSlot(a[1..], x) <==> CoversSlot(b[1..], x)
  {
    FirstRangeEnds(a);
    FirstRangeEnds(b);
    hide Normal, CoversSlot;
    assert a[0].start == b[0].start;
    assert !CoversSlot(b, a[0].end + 1) && !CoversSlot(a, b[0].end + 1);
  }

  /** Two normal lists that cover the same slots are the same list. */
  lemma {:induction false} NormalIsUnique(a: seq<Span>, b: seq<Span>)
    requires Normal(a) && Normal(b)
    requires forall x: int :: CoversSlot(a, x) <==> CoversSlot(b, x)
    ensures a == b
    decreases |a|
  {
    if a == [] || b == [] {
      if a != [] {
        FirstRangeEnds(a);
      }
      if b != [] {
        FirstRangeEnds(b);
      }
    } else {
      FirstRangeDetermined(a, b);
      NormalIsUnique(a[1..], b[1..]);
      assert a == [a[0]] + a[1..] && b == [b[0]] + b[1..];
    }
  }

  /** What is already normal is left alone, and range lists for the same slots merge alike. */
  lemma MergedIsCanonical(a: seq<Span>, b: seq<Span>)
    requires forall r | r in a :: r.start <= r.end <= U128_MAX
    requires forall r | r in b :: r.start <= r.end <= U128_MAX
    ensures Merged(a) == Merged(b) <==> forall x: int :: CoversSlot(a, x) <==> CoversSlot(b, x)
    ensures Normal(a) ==> Merged(a) == a
  {
    MergedNormal(a);
    MergedNormal(b);
    forall x: int ensures CoversSlot(Merged(a), x) <==> CoversSlot(a, x) {
      MergedCovers(a, x);
    }
    forall x: int ensures CoversSlot(Merged(b), x) <==> CoversSlot(b, x) {
      MergedCovers(b, x);
    }
    if forall x: int :: CoversSlot(a, x) <==> CoversSlot(b, x) {
      NormalIsUnique(Merged(a), Merged(b));
    }
    if Normal(a) {
      NormalIsUnique(Merged(a), a);
    }
  }
}
