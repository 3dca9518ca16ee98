/**
  The sweep of a mix: index segments against sorted explicit ranges, cut into slices.

  The specification routes each token on its own: token `i` goes to the output that asks for index
  `i`, or to the complement when none does. The sweep never looks at single tokens.
  */
module MixRouting {
  import opened Prelude
  import opened Spans
  import opened Tokens
  import opened MixPayload
  import opened Transactions

  // ---------------------------------------------------------------------------
  // Routing one token at a time
  // ---------------------------------------------------------------------------

  /** Output `k` receives token index `i`. */
  ghost predicate Receives(d: MixData, k: nat, i: nat) {
    if k == d.complementIndex then forall j: nat :: !Asks(d, j, i) else Asks(d, k, i)
  }

  /** The tokens output `k` receives, in input order. */
  ghost function Routed(ts: seq<Token>, d: MixData, k: nat): seq<Token> {
    if ts == [] then []
    else
      var n := |ts| - 1;
      Routed(ts[..n], d, k) + if Receives(d, k, n) then [ts[n]] else []
  }

  /** How many indices before `i` output `k` receives. */
  ghost function ReceivedBefore(d: MixData, k: nat, i: nat): nat {
    if i == 0 then 0 else ReceivedBefore(d, k, i - 1) + if Receives(d, k, i - 1) then 1 else 0
  }

  lemma {:induction false} RoutedLength(ts: seq<Token>, d: MixData, k: nat)
    ensures |Routed(ts, d, k)| == ReceivedBefore(d, k, |ts|)
    decreases |ts|
  {
    hide Receives;
    if ts != [] {
      RoutedLength(ts[..|ts| - 1], d, k);
    }
  }

  /** A token received stands behind those received before it. */
  lemma {:induction false} RoutedAt(ts: seq<Token>, d: MixData, k: nat, i: nat)
    requires i < |ts| && Receives(d, k, i)
    ensures ReceivedBefore(d, k, i) < |Routed(ts, d, k)| && Routed(ts, d, k)[ReceivedBefore(d, k, i)] == ts[i]
    decreases |ts|
  {
    hide Receives;
    var n := |ts| - 1;
    if i < n {
      RoutedAt(ts[..n], d, k, i);
    } else {
      RoutedLength(ts[..n], d, k);
    }
  }

  /** Every token an output is given was received at some index. */
  lemma {:induction false} RoutedFrom(ts: seq<Token>, d: MixData, k: nat, p: nat) returns (i: nat)
    requires p < |Routed(ts, d, k)|
    ensures i < |ts| && Receives(d, k, i) && ts[i] == Routed(ts, d, k)[p] && p == ReceivedBefore(d, k, i)
    decreases |ts|
  {
    hide Receives;
    var n := |ts| - 1;
    RoutedLength(ts[..n], d, k);
    if p < |Routed(ts[..n], d, k)| {
      i := RoutedFrom(ts[..n], d, k, p);
    } else {
      i := n;
    }
  }

  lemma {:induction false} ReceivedGrows(d: MixData, k: nat, i: nat, j: nat)
    requires i < j && Receives(d, k, i)
    ensures ReceivedBefore(d, k, i) < ReceivedBefore(d, k, j)
    decreases j
  {
    hide Receives;
    if i < j - 1 {
      ReceivedGrows(d, k, i, j - 1);
    }
  }

  /** `o` alone receives every index from `a` up to `b`. */
  ghost predicate AllTo(d: MixData, a: nat, b: nat, o: nat) {
    forall i: nat, k: nat | a <= i < b && k < |d.outputRanges| :: Receives(d, k, i) <==> k == o
  }

  lemma {:induction false} RoutedWindow(ts: seq<Token>, d: MixData, a: nat, b: nat, o: nat, k: nat)
    requires a <= b <= |ts| && k < |d.outputRanges|
    requires AllTo(d, a, b, o)
    ensures Routed(ts[..b], d, k) == if k == o then Routed(ts[..a], d, k) + ts[a..b] else Routed(ts[..a], d, k)
    decreases b
  {
    hide *;
    if a < b {
      AllToLast(d, a, b, o, k);
      RoutedWindow(ts, d, a, b - 1, o, k);
      RoutedLast(ts, d, b, k);
      assert ts[a..b] == ts[a..b - 1] + [ts[b - 1]];
    } else {
      assert ts[a..b] == [];
    }
  }

  lemma AllToLast(d: MixData, a: nat, b: nat, o: nat, k: nat)
    requires a < b && k < |d.outputRanges| && AllTo(d, a, b, o)
    ensures AllTo(d, a, b - 1, o) && (Receives(d, k, b - 1) <==> k == o)
  {
    hide Receives;
  }

  lemma RoutedLast(ts: seq<Token>, d: MixData, b: nat, k: nat)
    requires 0 < b <= |ts|
    ensures Routed(ts[..b], d, k)
         == if Receives(d, k, b - 1) then Routed(ts[..b - 1], d, k) + [ts[b - 1]] else Routed(ts[..b - 1], d, k)
  {
    hide Receives;
    assert ts[..b][..b - 1] == ts[..b - 1];
  }

  // ---------------------------------------------------------------------------
  // Sorted explicit ranges
  // ---------------------------------------------------------------------------

  ghost predicate Chain(d: MixData, es: seq<ExplicitRange>) {
    && (forall e :: e in es <==> e in Explicit(d))
    && AllNonEmpty(es, SpanOf, 0)
    && (forall i, j | 0 <= i < j < |es| :: es[i].end <= es[j].start)
    && (forall e | e in es :: e.outputIndex < |d.outputRanges| && e.outputIndex != d.complementIndex)
  }

  lemma SortedIsChain(d: MixData)
    requires ValidBasic(d)
    ensures Chain(d, Sort(Explicit(d), SpanOf))
  {
    var es := Sort(Explicit(d), SpanOf);
    ExplicitWf(d);
    SortMembers(Explicit(d), SpanOf);
    SortedNeighbourTest(Explicit(d), SpanOf, 0);
    forall i, j | 0 <= i < j < |es| ensures es[i].end <= es[j].start {
      NeighboursChain(es, SpanOf, 0, i, j);
    }
    forall e | e in es ensures e.outputIndex < |d.outputRanges| && e.outputIndex != d.complementIndex {
      ExplicitUpToMembers(d, |d.outputRanges|, e);
    }
  }

  lemma ReceivesByExplicit(d: MixData, es: seq<ExplicitRange>, k: nat, i: nat)
    requires ValidBasic(d) && Chain(d, es) && k < |d.outputRanges|
    ensures k != d.complementIndex ==>
      (Receives(d, k, i) <==> exists e | e in es :: e.outputIndex == k && Contains(SpanOf(e), 0, i))
    ensures k == d.complementIndex ==> (Receives(d, k, i) <==> forall e | e in es :: !Contains(SpanOf(e), 0, i))
  {
    if k != d.complementIndex {
      AsksIsExplicit(d, k, i);
    } else {
      if j: nat :| Asks(d, j, i) {
        assert j < |d.outputRanges| && j != k;
        AsksIsExplicit(d, j, i);
      }
      if e :| e in es && Contains(SpanOf(e), 0, i) {
        AsksIsExplicit(d, e.outputIndex, i);
        assert Asks(d, e.outputIndex, i);
      }
    }
  }

  lemma InsideRange(d: MixData, es: seq<ExplicitRange>, x: nat, i: nat, k: nat)
    requires ValidBasic(d) && Chain(d, es) && k < |d.outputRanges|
    requires x < |es| && es[x].start <= i < es[x].end
    ensures Receives(d, k, i) <==> k == es[x].outputIndex
  {
    ReceivesByExplicit(d, es, k, i);
    assert es[x] in es && Contains(SpanOf(es[x]), 0, i);
    forall e | e in es && Contains(SpanOf(e), 0, i) ensures e == es[x] {
      var y :| 0 <= y < |es| && es[y] == e;
    }
  }

  lemma OutsideRanges(d: MixData, es: seq<ExplicitRange>, x: nat, i: nat, k: nat)
    requires ValidBasic(d) && Chain(d, es) && k < |d.outputRanges|
    requires x <= |es| && (x > 0 ==> es[x - 1].end <= i) && (x < |es| ==> i < es[x].start)
    ensures Receives(d, k, i) <==> k == d.complementIndex
  {
    ReceivesByExplicit(d, es, k, i);
    forall e | e in es ensures !Contains(SpanOf(e), 0, i) {
      var y :| 0 <= y < |es| && es[y] == e;
      assert y < x ==> es[y].end <= i by {
        if y + 1 < x { assert es[y].end <= es[x - 1].start; assert es[x - 1] in es && NonEmpty(SpanOf(es[x - 1]), 0); }
      }
      assert y > x ==> es[x].end <= es[y].start && es[x] in es && NonEmpty(SpanOf(es[x]), 0);
    }
  }

  /** Ranges before `x` lie wholly behind the cursor. */
  predicate Passed(es: seq<ExplicitRange>, x: nat, cursor: nat) {
    x <= |es| && (x > 0 ==> es[x - 1].end <= cursor)
  }

  /** Where the slice that starts at `cursor` ends, and the output it goes to. */
  function NextCut(d: MixData, es: seq<ExplicitRange>, x: nat, cursor: nat, indexEnd: nat): (nat, nat) {
    if x >= |es| then (indexEnd, d.complementIndex)
    else if cursor >= es[x].start then (Min(indexEnd, es[x].end), es[x].outputIndex)
    else (Min(indexEnd, es[x].start), d.complementIndex)
  }

  /** The cut advances, stays in the segment, and all of it goes to one output. */
  lemma CutIsUniform(d: MixData, es: seq<ExplicitRange>, x: nat, cursor: nat, indexEnd: nat)
    requires ValidBasic(d) && Chain(d, es)
    requires Passed(es, x, cursor) && (x < |es| ==> cursor < es[x].end) && cursor < indexEnd
    ensures var (end, o) := NextCut(d, es, x, cursor, indexEnd);
            cursor < end <= indexEnd && o < |d.outputRanges| && AllTo(d, cursor, end, o)
  {
    var (end, o) := NextCut(d, es, x, cursor, indexEnd);
    if x < |es| {
      assert es[x] in es;
    }
    forall i: nat, k: nat | cursor <= i < end && k < |d.outputRanges| ensures Receives(d, k, i) <==> k == o {
      if x < |es| && cursor >= es[x].start {
        InsideRange(d, es, x, i, k);
      } else {
        OutsideRanges(d, es, x, i, k);
      }
    }
  }

  // ---------------------------------------------------------------------------
  // Index segments
  // ---------------------------------------------------------------------------

  datatype InputSegment = InputSegment(group: Group, slotStart: nat, indexStart: nat, indexEnd: nat)

  /** Segment `j` covers the indices of range `j`, counted over the ranges before it. */
  predicate Segmented(rs: seq<Slice>, segments: seq<InputSegment>) {
    && |segments| == |rs|
    && forall j | 0 <= j < |rs| ::
         segments[j] == InputSegment(rs[j].group, rs[j].start, |Flatten(rs[..j])|, |Flatten(rs[..j + 1])|)
  }

  lemma {:induction false} FlattenPrefix(rs: seq<Slice>, j: nat)
    requires j <= |rs|
    ensures |Flatten(rs[..j])| <= |Flatten(rs)|
    ensures Flatten(rs)[..|Flatten(rs[..j])|] == Flatten(rs[..j])
  {
    assert rs == rs[..j] + rs[j..];
    FlattenConcat(rs[..j], rs[j..]);
  }

  lemma SegmentLength(rs: seq<Slice>, j: nat)
    requires j < |rs| && WfSlice(rs[j])
    ensures |Flatten(rs[..j + 1])| == |Flatten(rs[..j])| + (rs[j].end - rs[j].start + 1)
  {
    assert rs[..j + 1][..j] == rs[..j];
  }

  lemma RunWindow(s: Slice, a: nat, b: nat)
    requires WfSlice(s) && a < b <= |Run(s)|
    ensures s.start + b - 1 <= s.end
    ensures Run(s)[a..b] == Run(Slice(s.group, s.start + a, s.start + b - 1))
  {
  }

  lemma WindowOfTail(ts: seq<Token>, front: seq<Token>, tail: seq<Token>, lo: nat, hi: nat)
    requires lo < hi <= |tail| && |front| + |tail| <= |ts|
    requires ts[..|front| + |tail|] == front + tail
    ensures ts[|front| + lo..|front| + hi] == tail[lo..hi]
  {
    assert ts[|front| + lo..|front| + hi] == (front + tail)[|front| + lo..|front| + hi];
  }

  lemma SegmentInFlatten(rs: seq<Slice>, j: nat)
    requires j < |rs|
    ensures |Flatten(rs[..j])| + |Run(rs[j])| <= |Flatten(rs)|
    ensures Flatten(rs)[..|Flatten(rs[..j])| + |Run(rs[j])|] == Flatten(rs[..j]) + Run(rs[j])
  {
    assert rs[..j + 1][..j] == rs[..j];
    FlattenPrefix(rs, j + 1);
  }

  /** A window inside one segment, from offset `lo` to `hi` in its range, is a run of slots. */
  lemma WindowIsRun(rs: seq<Slice>, j: nat, lo: nat, hi: nat)
    requires j < |rs| && WfSlice(rs[j]) && lo < hi <= |Run(rs[j])|
    ensures |Flatten(rs[..j])| + hi <= |Flatten(rs)| && rs[j].start + hi - 1 <= rs[j].end
    ensures Flatten(rs)[|Flatten(rs[..j])| + lo..|Flatten(rs[..j])| + hi]
         == Run(Slice(rs[j].group, rs[j].start + lo, rs[j].start + hi - 1))
  {
    hide Flatten, Run;
    SegmentInFlatten(rs, j);
    WindowOfTail(Flatten(rs), Flatten(rs[..j]), Run(rs[j]), lo, hi);
    RunWindow(rs[j], lo, hi);
  }

  // ---------------------------------------------------------------------------
  // The sweep
  // ---------------------------------------------------------------------------

  class OutputAssignment {
    var slices: seq<Slice>

    constructor ()
      ensures slices == []
    {
      slices := [];
    }

    method PushSlice(group: Group, slotStart: nat, slotEnd: nat)
      modifies this
      ensures slices == Push(old(slices), Slice(group, slotStart, slotEnd))
    {
      if |slices| > 0 {
        var last := slices[|slices| - 1];
        if last.group == group && last.end < U128_MAX && last.end + 1 == slotStart {
          slices := slices[..|slices| - 1] + [last.(end := slotEnd)];
          return;
        }
      }
      slices := slices + [Slice(group, slotStart, slotEnd)];
    }
  }

  predicate AllDifferent(xs: seq<OutputAssignment>) {
    forall i, j | 0 <= i < j < |xs| :: xs[i] != xs[j]
  }

  /** What output `k` should hold once the sweep has passed the first `cursor` tokens. */
  ghost function Target(ts: seq<Token>, d: MixData, cursor: nat, k: nat): seq<Slice>
    requires cursor <= |ts|
  {
    Compress(Routed(ts[..cursor], d, k))
  }

  ghost predicate Swept(assignments: seq<OutputAssignment>, d: MixData, ts: seq<Token>, cursor: nat)
    reads assignments
  {
    && cursor <= |ts| && |assignments| == |d.outputRanges| && AllDifferent(assignments)
    && forall k | 0 <= k < |assignments| :: assignments[k].slices == Target(ts, d, cursor, k)
  }

  lemma TargetOfWindow(ts: seq<Token>, d: MixData, a: nat, b: nat, o: nat, s: Slice)
    requires a < b <= |ts| && o < |d.outputRanges| && AllTo(d, a, b, o)
    requires WfSlice(s) && ts[a..b] == Run(s)
    ensures Target(ts, d, b, o) == Push(Target(ts, d, a, o), s)
  {
    RoutedWindow(ts, d, a, b, o, o);
    PushRun(Routed(ts[..a], d, o), s);
  }

  lemma TargetElsewhere(ts: seq<Token>, d: MixData, a: nat, b: nat, o: nat, k: nat)
    requires a < b <= |ts| && k < |d.outputRanges| && k != o && AllTo(d, a, b, o)
    ensures Target(ts, d, b, k) == Target(ts, d, a, k)
  {
    RoutedWindow(ts, d, a, b, o, k);
  }

  lemma TargetsOfWindow(ts: seq<Token>, d: MixData, a: nat, b: nat, o: nat, s: Slice)
    requires a < b <= |ts| && o < |d.outputRanges| && AllTo(d, a, b, o)
    requires WfSlice(s) && ts[a..b] == Run(s)
    ensures forall k: nat | k < |d.outputRanges| ::
              Target(ts, d, b, k) == if k == o then Push(Target(ts, d, a, k), s) else Target(ts, d, a, k)
  {
    forall k: nat | k < |d.outputRanges|
      ensures Target(ts, d, b, k) == if k == o then Push(Target(ts, d, a, k), s) else Target(ts, d, a, k)
    {
      if k == o {
        TargetOfWindow(ts, d, a, b, o, s);
      } else {
        TargetElsewhere(ts, d, a, b, o, k);
      }
    }
  }

  method GiveRun(
    assignments: seq<OutputAssignment>, group: Group, slotStart: nat, slotEnd: nat, o: nat, ghost ts: seq<Token>,
    ghost d: MixData, ghost a: nat, ghost b: nat)
    requires Swept(assignments, d, ts, a) && a < b <= |ts| && o < |d.outputRanges| && AllTo(d, a, b, o)
    requires slotStart <= slotEnd <= U128_MAX && ts[a..b] == Run(Slice(group, slotStart, slotEnd))
    modifies assignments[o]
    ensures Swept(assignments, d, ts, b)
  {
    TargetsOfWindow(ts, d, a, b, o, Slice(group, slotStart, slotEnd));
    assignments[o].PushSlice(group, slotStart, slotEnd);
  }

  /** Hands the tokens from `a` to `b`, all in segment `j`, to output `o`. */
  method AssignCut(
    assignments: seq<OutputAssignment>, segment: InputSegment, a: nat, b: nat, o: nat, ghost d: MixData,
    ghost rs: seq<Slice>, ghost j: nat)
    requires WfSlices(rs) && j < |rs|
    requires segment == InputSegment(rs[j].group, rs[j].start, |Flatten(rs[..j])|, |Flatten(rs[..j + 1])|)
    requires segment.indexStart <= a < b <= segment.indexEnd
    requires o < |d.outputRanges| && AllTo(d, a, b, o)
    requires Swept(assignments, d, Flatten(rs), a)
    modifies assignments
    ensures Swept(assignments, d, Flatten(rs), b)
  {
    hide Flatten, AllTo;
    SegmentLength(rs, j);
    WindowIsRun(rs, j, a - segment.indexStart, b - segment.indexStart);
    var offset := a - segment.indexStart;
    var sliceLen := b - a;
    var slotStart := segment.slotStart + offset;
    if slotStart > U128_MAX {
      assert false;
    }
    var slotEnd := slotStart + (sliceLen - 1);
    if slotEnd > U128_MAX {
      assert false;
    }
    GiveRun(assignments, segment.group, slotStart, slotEnd, o, Flatten(rs), d, a, b);
  }

  /** Range starts and ends at or behind the cursor: each is charged to at most one cut. */
  ghost function Marks(es: seq<ExplicitRange>, x: nat, cursor: nat): nat {
    2 * x
    + (if x < |es| && es[x].start <= cursor then 1 else 0)
    + (if x < |es| && es[x].end <= cursor then 1 else 0)
  }

  method SkipPassed(es: seq<ExplicitRange>, x0: nat, cursor: nat) returns (x: nat)
    requires AllNonEmpty(es, SpanOf, 0) && Passed(es, x0, cursor)
    ensures Passed(es, x, cursor) && (x < |es| ==> cursor < es[x].end)
    ensures Marks(es, x0, cursor) <= Marks(es, x, cursor)
  {
    x := x0;
    while x < |es| && cursor >= es[x].end
      invariant Passed(es, x, cursor)
      invariant Marks(es, x0, cursor) <= Marks(es, x, cursor)
    {
      assert es[x] in es && NonEmpty(SpanOf(es[x]), 0);
      x := x + 1;
    }
  }

  /** One segment. The cuts it makes are paid for by its own end and by the range bounds it passes. */
  method SweepSegment(
    d: MixData, es: seq<ExplicitRange>, segment: InputSegment, assignments: seq<OutputAssignment>, x0: nat,
    ghost rs: seq<Slice>, ghost j: nat)
    returns (x: nat, ghost cuts: nat)
    requires ValidBasic(d) && Chain(d, es) && WfSlices(rs) && j < |rs|
    requires segment == InputSegment(rs[j].group, rs[j].start, |Flatten(rs[..j])|, |Flatten(rs[..j + 1])|)
    requires Passed(es, x0, segment.indexStart)
    requires Swept(assignments, d, Flatten(rs), segment.indexStart)
    modifies assignments
    ensures Swept(assignments, d, Flatten(rs), segment.indexEnd)
    ensures Passed(es, x, segment.indexEnd)
    ensures cuts + Marks(es, x0, segment.indexStart) <= 1 + Marks(es, x, segment.indexEnd)
  {
    hide Flatten, AllTo, ValidBasic;
    x := x0;
    cuts := 0;
    SegmentLength(rs, j);
    var cursor := segment.indexStart;
    while cursor < segment.indexEnd
      invariant segment.indexStart <= cursor <= segment.indexEnd
      invariant Passed(es, x, cursor)
      invariant Swept(assignments, d, Flatten(rs), cursor)
      invariant cuts + Marks(es, x0, segment.indexStart)
             <= Marks(es, x, cursor) + if cursor == segment.indexEnd then 1 else 0
    {
      x := SkipPassed(es, x, cursor);
      CutIsUniform(d, es, x, cursor, segment.indexEnd);
      var (sliceEnd, outputIndex) := NextCut(d, es, x, cursor, segment.indexEnd);
      if sliceEnd <= cursor {
        assert false;
      }
      AssignCut(assignments, segment, cursor, sliceEnd, outputIndex, d, rs, j);
      cuts := cuts + 1;
      cursor := sliceEnd;
    }
  }

  method EmptyAssignments(d: MixData, ghost ts: seq<Token>) returns (assignments: seq<OutputAssignment>)
    ensures fresh(assignments) && Swept(assignments, d, ts, 0)
  {
    assignments := [];
    for k := 0 to |d.outputRanges|
      invariant |assignments| == k && fresh(assignments) && AllDifferent(assignments)
      invariant forall i | 0 <= i < k :: assignments[i].slices == []
    {
      var a := new OutputAssignment();
      assignments := assignments + [a];
    }
    assert ts[..0] == [];
  }

  /**
    The whole sweep. Every output ends up with the coalesced form of exactly the tokens routed to
    it; no error branch is reached; and there are at most (segments + 2 x explicit ranges) cuts.
    */
  method Sweep(d: MixData, segments: seq<InputSegment>, ghost rs: seq<Slice>)
    returns (assignments: seq<OutputAssignment>, ghost cuts: nat)
    requires ValidBasic(d) && WfSlices(rs) && Segmented(rs, segments)
    ensures fresh(assignments)
    ensures |assignments| == |d.outputRanges|
    ensures forall k | 0 <= k < |assignments| :: assignments[k].slices == Compress(Routed(Flatten(rs), d, k))
    ensures cuts <= |segments| + 2 * |Explicit(d)|
  {
    var explicitRanges := Sort(Explicit(d), SpanOf);
    SortedIsChain(d);
    assignments := EmptyAssignments(d, Flatten(rs));
    var x := 0;
    cuts := 0;
    assert Flatten(rs[..0]) == [];
    hide Flatten, ValidBasic, AllTo, Chain, Explicit;
    for j := 0 to |segments|
      invariant Swept(assignments, d, Flatten(rs), |Flatten(rs[..j])|)
      invariant Passed(explicitRanges, x, |Flatten(rs[..j])|)
      invariant cuts <= j + Marks(explicitRanges, x, |Flatten(rs[..j])|)
    {
      ghost var made;
      x, made := SweepSegment(d, explicitRanges, segments[j], assignments, x, rs, j);
      cuts := cuts + made;
    }
    assert rs[..|segments|] == rs && Flatten(rs)[..|Flatten(rs)|] == Flatten(rs);
  }
}
