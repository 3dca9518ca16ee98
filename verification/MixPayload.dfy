/**
  The mix message: which token index goes to which output, its validity, and its byte form.
  */
module MixPayload {
  import opened Prelude
  import opened Bytes
  import opened Spans
  import opened VarInt96

  /** A half-open range of token indices. */
  type IndexRange = Span

  datatype MixData = MixData(outputRanges: seq<seq<IndexRange>>, complementIndex: nat)

  /** An explicit range together with the output that asked for it. */
  datatype ExplicitRange = ExplicitRange(start: nat, end: nat, outputIndex: nat)

  function SpanOf(e: ExplicitRange): Span {
    Span(e.start, e.end)
  }

  function Tagged(ranges: seq<IndexRange>, k: nat): seq<ExplicitRange> {
    seq(|ranges|, i requires 0 <= i < |ranges| => ExplicitRange(ranges[i].start, ranges[i].end, k))
  }

  function ExplicitUpTo(d: MixData, n: nat): seq<ExplicitRange>
    requires n <= |d.outputRanges|
  {
    if n == 0 then []
    else ExplicitUpTo(d, n - 1)
         + if n - 1 == d.complementIndex then [] else Tagged(d.outputRanges[n - 1], n - 1)
  }

  /** Every explicit range, output by output. */
  function Explicit(d: MixData): seq<ExplicitRange> {
    ExplicitUpTo(d, |d.outputRanges|)
  }

  /** Output `k` lists token index `i` in one of its ranges. */
  ghost predicate Asks(d: MixData, k: nat, i: nat) {
    k < |d.outputRanges| && exists r | r in d.outputRanges[k] :: Contains(r, 0, i)
  }

  predicate WfRange(r: IndexRange) {
    r.start < r.end <= MAX_VALUE
  }

  predicate WfRanges(rs: seq<IndexRange>) {
    forall i | 0 <= i < |rs| :: WfRange(rs[i])
  }

  /** What `validate_basic` is for: every token index is claimed at most once, and one output takes the rest. */
  ghost predicate ValidBasic(d: MixData) {
    && d.complementIndex < |d.outputRanges|
    && (forall k | 0 <= k < |d.outputRanges| :: d.outputRanges[k] == [] <==> k == d.complementIndex)
    && (forall k | 0 <= k < |d.outputRanges| :: WfRanges(d.outputRanges[k]))
    && NoSharedIndex(Explicit(d), SpanOf, 0)
  }

  // ---------------------------------------------------------------------------
  // The flattened list of explicit ranges
  // ---------------------------------------------------------------------------

  lemma {:induction false} ExplicitUpToMembers(d: MixData, n: nat, e: ExplicitRange)
    requires n <= |d.outputRanges|
    ensures e in ExplicitUpTo(d, n)
      <==> e.outputIndex < n && e.outputIndex != d.complementIndex && SpanOf(e) in d.outputRanges[e.outputIndex]
  {
    if n > 0 {
      ExplicitUpToMembers(d, n - 1, e);
      TaggedMembers(d.outputRanges[n - 1], n - 1, e);
      var tail := if n - 1 == d.complementIndex then [] else Tagged(d.outputRanges[n - 1], n - 1);
      assert e in ExplicitUpTo(d, n) <==> e in ExplicitUpTo(d, n - 1) || e in tail;
    }
  }

  lemma TaggedMembers(ranges: seq<IndexRange>, k: nat, e: ExplicitRange)
    ensures e in Tagged(ranges, k) <==> e.outputIndex == k && SpanOf(e) in ranges
  {
    if e.outputIndex == k && SpanOf(e) in ranges {
      var i :| 0 <= i < |ranges| && ranges[i] == SpanOf(e);
      assert Tagged(ranges, k)[i] == e;
    }
  }

  /** An output other than the complement asks for an index exactly when one of its explicit ranges holds it. */
  lemma AsksIsExplicit(d: MixData, k: nat, i: nat)
    requires k < |d.outputRanges| && k != d.complementIndex
    ensures Asks(d, k, i) <==> exists e | e in Explicit(d) :: e.outputIndex == k && Contains(SpanOf(e), 0, i)
  {
    if Asks(d, k, i) {
      var r :| r in d.outputRanges[k] && Contains(r, 0, i);
      var e := ExplicitRange(r.start, r.end, k);
      ExplicitUpToMembers(d, |d.outputRanges|, e);
      assert SpanOf(e) == r;
    }
    if e :| e in Explicit(d) && e.outputIndex == k && Contains(SpanOf(e), 0, i) {
      ExplicitUpToMembers(d, |d.outputRanges|, e);
      assert SpanOf(e) in d.outputRanges[k];
    }
  }

  lemma ExplicitWf(d: MixData)
    requires forall k | 0 <= k < |d.outputRanges| :: WfRanges(d.outputRanges[k])
    ensures forall e | e in Explicit(d) :: WfRange(SpanOf(e))
    ensures AllNonEmpty(Explicit(d), SpanOf, 0)
  {
    forall e | e in Explicit(d) ensures WfRange(SpanOf(e)) {
      ExplicitUpToMembers(d, |d.outputRanges|, e);
    }
  }

  // ---------------------------------------------------------------------------
  // validate_basic
  // ---------------------------------------------------------------------------

  function SpansOf(es: seq<ExplicitRange>): seq<Span> {
    seq(|es|, i requires 0 <= i < |es| => SpanOf(es[i]))
  }

  lemma SpansShareNoIndex(es: seq<ExplicitRange>)
    ensures NoSharedIndex(SpansOf(es), Itself, 0) <==> NoSharedIndex(es, SpanOf, 0)
  {
    assert forall i | 0 <= i < |es| :: Itself(SpansOf(es)[i]) == SpanOf(es[i]);
  }

  method CollectExplicit(d: MixData) returns (all: seq<Span>)
    ensures all == SpansOf(Explicit(d))
  {
    all := [];
    for k := 0 to |d.outputRanges|
      invariant all == SpansOf(ExplicitUpTo(d, k))
    {
      if k == d.complementIndex {
        continue;
      }
      ghost var before := ExplicitUpTo(d, k);
      var ranges := d.outputRanges[k];
      for i := 0 to |ranges|
        invariant all == SpansOf(before + Tagged(ranges, k)[..i])
      {
        all := all + [ranges[i]];
      }
      assert Tagged(ranges, k)[..|ranges|] == Tagged(ranges, k);
    }
  }

  method ValidateRanges(ranges: seq<IndexRange>) returns (r: Result<(), Brc721Error>)
    ensures r.Ok? <==> WfRanges(ranges)
    ensures r.Err? ==> r.error == TxError
  {
    for i := 0 to |ranges|
      invariant WfRanges(ranges[..i])
    {
      assert ranges[..i + 1][i] == ranges[i];
      if ranges[i].start >= ranges[i].end {
        return Err(TxError);
      }
      if ranges[i].start > MAX_VALUE || ranges[i].end > MAX_VALUE {
        return Err(TxError);
      }
    }
    assert ranges[..|ranges|] == ranges;
    return Ok(());
  }

  method ValidateBasic(d: MixData) returns (r: Result<(), Brc721Error>)
    ensures r.Ok? <==> ValidBasic(d)
    ensures r.Err? ==> r.error == TxError
  {
    if |d.outputRanges| == 0 {
      return Err(TxError);
    }
    if d.complementIndex >= |d.outputRanges| {
      return Err(TxError);
    }
    for k := 0 to |d.outputRanges|
      invariant forall j | 0 <= j < k :: d.outputRanges[j] == [] <==> j == d.complementIndex
      invariant forall j | 0 <= j < k :: WfRanges(d.outputRanges[j])
    {
      var ranges := d.outputRanges[k];
      if k == d.complementIndex {
        if |ranges| != 0 {
          return Err(TxError);
        }
        continue;
      }
      if |ranges| == 0 {
        return Err(TxError);
      }
      var ok := ValidateRanges(ranges);
      if ok.Err? {
        return Err(TxError);
      }
    }
    ExplicitWf(d);
    var all := CollectExplicit(d);
    assert AllNonEmpty(all, Itself, 0) by {
      forall s | s in all ensures NonEmpty(Itself(s), 0) {
        var i :| 0 <= i < |all| && all[i] == s;
        assert Explicit(d)[i] in Explicit(d);
      }
    }
    SpansShareNoIndex(Explicit(d));
    if |all| == 0 {
      if |d.outputRanges| == 1 && d.complementIndex == 0 {
        return Ok(());
      }
      var other := if d.complementIndex == 0 then 1 else 0;
      var first := d.outputRanges[other][0];
      ExplicitUpToMembers(d, |d.outputRanges|, ExplicitRange(first.start, first.end, other));
      assert false;
    }
    var overlap := FindOverlap(all, 0);
    if overlap {
      return Err(TxError);
    }
    return Ok(());
  }

  /** Where the ranges of output `k` stand in the flattened list. */
  lemma {:induction false} ExplicitAt(d: MixData, n: nat, k: nat, a: nat)
    requires k < n <= |d.outputRanges| && k != d.complementIndex && a < |d.outputRanges[k]|
    ensures var p, r := |ExplicitUpTo(d, k)| + a, d.outputRanges[k][a];
            && |ExplicitUpTo(d, k)| <= p < |ExplicitUpTo(d, n)|
            && ExplicitUpTo(d, n)[p] == ExplicitRange(r.start, r.end, k)
    decreases n
  {
    if k < n - 1 {
      ExplicitAt(d, n - 1, k, a);
    }
  }

  lemma {:induction false} ExplicitFrom(d: MixData, n: nat, p: nat) returns (k: nat, a: nat)
    requires n <= |d.outputRanges| && p < |ExplicitUpTo(d, n)|
    ensures k < n && k != d.complementIndex && a < |d.outputRanges[k]| && p == |ExplicitUpTo(d, k)| + a
    decreases n
  {
    if p < |ExplicitUpTo(d, n - 1)| {
      k, a := ExplicitFrom(d, n - 1, p);
    } else {
      k, a := n - 1, p - |ExplicitUpTo(d, n - 1)|;
    }
  }

  /** Range `a` of output `k` holds index `i`. */
  predicate ListsAt(d: MixData, k: nat, a: nat, i: int) {
    k < |d.outputRanges| && a < |d.outputRanges[k]| && d.outputRanges[k][a].start <= i < d.outputRanges[k][a].end
  }

  /** No index is listed in two places. */
  ghost predicate ListedOnce(d: MixData) {
    forall k: nat, a: nat, l: nat, b: nat, i: int ::
      ListsAt(d, k, a, i) && ListsAt(d, l, b, i) ==> k == l && a == b
  }

  lemma PlacesDiffer(d: MixData, k: nat, a: nat, l: nat, b: nat)
    requires k < |d.outputRanges| && k != d.complementIndex && a < |d.outputRanges[k]|
    requires l < |d.outputRanges| && l != d.complementIndex && b < |d.outputRanges[l]|
    requires |ExplicitUpTo(d, k)| + a == |ExplicitUpTo(d, l)| + b
    ensures k == l && a == b
  {
    if k < l {
      ExplicitAt(d, l, k, a);
    } else if l < k {
      ExplicitAt(d, k, l, b);
    }
  }

  lemma OnceIsApart(d: MixData)
    requires d.complementIndex < |d.outputRanges| ==> d.outputRanges[d.complementIndex] == []
    ensures ListedOnce(d) <==> NoSharedIndex(Explicit(d), SpanOf, 0)
  {
    hide ExplicitUpTo;
    var es := Explicit(d);
    if ListedOnce(d) {
      forall p, q, i: int | 0 <= p < q < |es|
        ensures !(Contains(SpanOf(es[p]), 0, i) && Contains(SpanOf(es[q]), 0, i))
      {
        var k, a := ExplicitFrom(d, |d.outputRanges|, p);
        var l, b := ExplicitFrom(d, |d.outputRanges|, q);
        ExplicitAt(d, |d.outputRanges|, k, a);
        ExplicitAt(d, |d.outputRanges|, l, b);
        assert ListsAt(d, k, a, i) && ListsAt(d, l, b, i) ==> k == l && a == b;
      }
    }
    if NoSharedIndex(es, SpanOf, 0) {
      forall k: nat, a: nat, l: nat, b: nat, i: int | ListsAt(d, k, a, i) && ListsAt(d, l, b, i)
        ensures k == l && a == b
      {
        ExplicitAt(d, |d.outputRanges|, k, a);
        ExplicitAt(d, |d.outputRanges|, l, b);
        var p, q := |ExplicitUpTo(d, k)| + a, |ExplicitUpTo(d, l)| + b;
        assert Contains(SpanOf(es[p]), 0, i) && Contains(SpanOf(es[q]), 0, i);
        if p == q {
          PlacesDiffer(d, k, a, l, b);
        }
      }
    }
  }

  /**
    What makes a mix valid, range by range: one output lists nothing and takes the rest, every other
    lists something, no range is empty or reaches past 96 bits, and no index is listed twice.
    */
  lemma ValidBasicIff(d: MixData)
    ensures ValidBasic(d)
      <==> && d.complementIndex < |d.outputRanges|
           && (forall k | 0 <= k < |d.outputRanges| :: |d.outputRanges[k]| == 0 <==> k == d.complementIndex)
           && (forall k, a | 0 <= k < |d.outputRanges| && 0 <= a < |d.outputRanges[k]| ::
                 d.outputRanges[k][a].start < d.outputRanges[k][a].end < 0x1_0000_0000_0000_0000_0000_0000)
           && ListedOnce(d)
  {
    hide NoSharedIndex, Explicit, ListedOnce;
    if d.complementIndex < |d.outputRanges| && d.outputRanges[d.complementIndex] == [] {
      OnceIsApart(d);
    }
  }

  // ---------------------------------------------------------------------------
  // validate_token_count
  // ---------------------------------------------------------------------------

  function MaxEnd(es: seq<ExplicitRange>): Option<nat> {
    if es == [] then None
    else
      var n := |es| - 1;
      match MaxEnd(es[..n])
      case None => Some(es[n].end)
      case Some(m) => Some(if es[n].end > m then es[n].end else m)
  }

  function MaxExplicitEnd(d: MixData): Option<nat> {
    MaxEnd(Explicit(d))
  }

  function ValidateTokenCount(d: MixData, totalTokens: nat): Result<(), Brc721Error> {
    match MaxExplicitEnd(d)
    case None =>
      if |d.outputRanges| == 1 && d.complementIndex == 0 then Ok(()) else Err(TxError)
    case Some(maxEnd) =>
      if maxEnd == 0 then Err(TxError)
      else if totalTokens < maxEnd then Err(TxError)
      else Ok(())
  }

  lemma {:induction false} MaxEndBounds(es: seq<ExplicitRange>, bound: nat)
    ensures MaxEnd(es) == None <==> es == []
    ensures MaxEnd(es).Some? ==> (MaxEnd(es).value <= bound <==> forall e | e in es :: e.end <= bound)
  {
    if es != [] {
      var n := |es| - 1;
      MaxEndBounds(es[..n], bound);
      assert es == es[..n] + [es[n]];
      assert forall e :: e in es <==> e in es[..n] || e == es[n];
    }
  }

  /** A valid mix passes the token count exactly when every explicit index exists. */
  lemma TokenCountMeaning(d: MixData, totalTokens: nat)
    requires ValidBasic(d)
    ensures ValidateTokenCount(d, totalTokens).Ok?
      <==> forall k, i: nat | k != d.complementIndex && Asks(d, k, i) :: i < totalTokens
    ensures ValidateTokenCount(d, totalTokens).Ok? <==> forall e | e in Explicit(d) :: e.end <= totalTokens
  {
    var es := Explicit(d);
    MaxEndBounds(es, totalTokens);
    ExplicitWf(d);
    if es == [] && |d.outputRanges| > 1 {
      var k := if d.complementIndex == 0 then 1 else 0;
      var first := d.outputRanges[k][0];
      ExplicitUpToMembers(d, |d.outputRanges|, ExplicitRange(first.start, first.end, k));
    }
    if es != [] {
      MaxEndBounds(es, 0);
      assert es[0] in es;
    }
    forall k, i: nat | k != d.complementIndex && Asks(d, k, i) && (forall e | e in es :: e.end <= totalTokens)
      ensures i < totalTokens
    {
      AsksIsExplicit(d, k, i);
    }
    if forall k, i: nat | k != d.complementIndex && Asks(d, k, i) :: i < totalTokens {
      forall e | e in es ensures e.end <= totalTokens {
        ExplicitUpToMembers(d, |d.outputRanges|, e);
        assert Contains(SpanOf(e), 0, e.end - 1);
        assert Asks(d, e.outputIndex, e.end - 1);
      }
    }
  }

  // ---------------------------------------------------------------------------
  // Byte form
  // ---------------------------------------------------------------------------

  function EncodeRanges(rs: seq<IndexRange>): seq<byte> {
    if rs == [] then [] else Encode(rs[0].start) + Encode(rs[0].end) + EncodeRanges(rs[1..])
  }

  function EncodeOutputs(outs: seq<seq<IndexRange>>): seq<byte> {
    if outs == [] then [] else Encode(|outs[0]|) + EncodeRanges(outs[0]) + EncodeOutputs(outs[1..])
  }

  function EncodeMix(d: MixData): seq<byte> {
    Encode(|d.outputRanges|) + EncodeOutputs(d.outputRanges)
  }

  function DecodeRanges(bs: seq<byte>, n: nat): (r: Result<(seq<IndexRange>, seq<byte>), Brc721Error>)
    ensures r.Ok? ==> |r.value.1| <= |bs|
    decreases n
  {
    if n == 0 then Ok(([], bs))
    else
      var (start, bs1) :- TakeVarint(bs);
      var (end, bs2) :- TakeVarint(bs1);
      if start >= end then Err(TxError)
      else
        var (rs, rest) :- DecodeRanges(bs2, n - 1);
        Ok(([Span(start, end)] + rs, rest))
  }

  /** One output. `seen`: the complement output, the one with no ranges, has been read already. */
  function DecodeOutput(bs: seq<byte>, seen: bool): Result<(seq<IndexRange>, seq<byte>), Brc721Error> {
    var (count, bs1) :- TakeVarint(bs);
    if count > USIZE_MAX || (count == 0 && seen) then Err(TxError) else DecodeRanges(bs1, count)
  }

  function DecodeOutputs(bs: seq<byte>, n: nat, seen: bool)
    : (r: Result<(seq<seq<IndexRange>>, seq<byte>), Brc721Error>)
    ensures r.Ok? ==> |r.value.1| <= |bs|
    decreases n
  {
    if n == 0 then Ok(([], bs))
    else
      var (ranges, bs1) :- DecodeOutput(bs, seen);
      var (outs, rest) :- DecodeOutputs(bs1, n - 1, seen || ranges == []);
      Ok(([ranges] + outs, rest))
  }

  function FindEmpty(outs: seq<seq<IndexRange>>): Option<nat> {
    if outs == [] then None
    else
      var n := |outs| - 1;
      match FindEmpty(outs[..n])
      case Some(k) => Some(k)
      case None => if outs[n] == [] then Some(n) else None
  }

  ghost function DecodeMix(bs: seq<byte>): Result<MixData, Brc721Error> {
    var (n, bs1) :- TakeVarint(bs);
    if n > USIZE_MAX || n < 1 then Err(TxError)
    else
      var (outs, rest) :- DecodeOutputs(bs1, n, false);
      if rest != [] then Err(InvalidLength(|bs| - |rest|, |bs|))
      else match FindEmpty(outs)
        case None => Err(TxError)
        case Some(c) => if ValidBasic(MixData(outs, c)) then Ok(MixData(outs, c)) else Err(TxError)
  }

  /** Vector lengths are `usize` values. */
  predicate FitsMemory(d: MixData) {
    |d.outputRanges| <= USIZE_MAX && forall k | 0 <= k < |d.outputRanges| :: |d.outputRanges[k]| <= USIZE_MAX
  }

  lemma UnconsRanges(rs: seq<IndexRange>) returns (r: IndexRange, tail: seq<IndexRange>)
    requires rs != [] && WfRanges(rs)
    ensures rs == [r] + tail && |tail| + 1 == |rs| && WfRange(r) && WfRanges(tail)
    ensures EncodeRanges(rs) == Encode(r.start) + Encode(r.end) + EncodeRanges(tail)
  {
    r, tail := rs[0], rs[1..];
  }

  lemma DecodeFirstRange(
    bs: seq<byte>, r: IndexRange, tailBytes: seq<byte>, n: nat, tail: seq<IndexRange>, rest: seq<byte>)
    requires n > 0 && WfRange(r) && bs == Encode(r.start) + (Encode(r.end) + tailBytes)
    requires DecodeRanges(tailBytes, n - 1) == Ok((tail, rest))
    ensures DecodeRanges(bs, n) == Ok(([r] + tail, rest))
  {
    TakeOfEncode(r.start, Encode(r.end) + tailBytes);
    TakeOfEncode(r.end, tailBytes);
  }

  lemma DecodeNoRanges(rest: seq<byte>)
    ensures DecodeRanges(EncodeRanges([]) + rest, 0) == Ok(([], rest))
  {
    assert EncodeRanges([]) + rest == rest;
  }

  lemma {:induction false} DecodeRangesOfEncode(rs: seq<IndexRange>, rest: seq<byte>)
    requires WfRanges(rs)
    ensures DecodeRanges(EncodeRanges(rs) + rest, |rs|) == Ok((rs, rest))
    decreases |rs|
  {
    hide *;
    if rs == [] {
      DecodeNoRanges(rest);
    } else {
      var r, tail := UnconsRanges(rs);
      DecodeRangesOfEncode(tail, rest);
      Regroup(Encode(r.start), Encode(r.end), EncodeRanges(tail), rest);
      DecodeFirstRange(EncodeRanges(rs) + rest, r, EncodeRanges(tail) + rest, |rs|, tail, rest);
    }
  }

  predicate OneEmptyAtMost(outs: seq<seq<IndexRange>>, seen: bool) {
    outs == [] || ((outs[0] == [] ==> !seen) && OneEmptyAtMost(outs[1..], seen || outs[0] == []))
  }

  lemma DecodeFirstOutput(
    bs: seq<byte>, ranges: seq<IndexRange>, tailBytes: seq<byte>, n: nat, seen: bool,
    tail: seq<seq<IndexRange>>, rest: seq<byte>)
    requires n > 0 && WfRanges(ranges) && |ranges| <= USIZE_MAX && (ranges == [] ==> !seen)
    requires bs == Encode(|ranges|) + (EncodeRanges(ranges) + tailBytes)
    requires DecodeOutputs(tailBytes, n - 1, seen || ranges == []) == Ok((tail, rest))
    ensures DecodeOutputs(bs, n, seen) == Ok(([ranges] + tail, rest))
  {
    TakeOfEncode(|ranges|, EncodeRanges(ranges) + tailBytes);
    DecodeRangesOfEncode(ranges, tailBytes);
  }

  predicate OutputsFit(outs: seq<seq<IndexRange>>) {
    forall k | 0 <= k < |outs| :: WfRanges(outs[k]) && |outs[k]| <= USIZE_MAX
  }

  lemma UnconsOutputs(outs: seq<seq<IndexRange>>, seen: bool)
    returns (ranges: seq<IndexRange>, tail: seq<seq<IndexRange>>)
    requires outs != [] && OutputsFit(outs) && OneEmptyAtMost(outs, seen)
    ensures outs == [ranges] + tail && |tail| + 1 == |outs|
    ensures WfRanges(ranges) && |ranges| <= USIZE_MAX && (ranges == [] ==> !seen)
    ensures OutputsFit(tail) && OneEmptyAtMost(tail, seen || ranges == [])
    ensures EncodeOutputs(outs) == Encode(|ranges|) + EncodeRanges(ranges) + EncodeOutputs(tail)
  {
    ranges, tail := outs[0], outs[1..];
  }

  lemma DecodeNoOutputs(rest: seq<byte>, seen: bool)
    ensures DecodeOutputs(EncodeOutputs([]) + rest, 0, seen) == Ok(([], rest))
  {
    assert EncodeOutputs([]) + rest == rest;
  }

  lemma {:induction false} DecodeOutputsOfEncode(outs: seq<seq<IndexRange>>, rest: seq<byte>, seen: bool)
    requires OutputsFit(outs) && OneEmptyAtMost(outs, seen)
    ensures DecodeOutputs(EncodeOutputs(outs) + rest, |outs|, seen) == Ok((outs, rest))
    decreases |outs|
  {
    hide *;
    if outs == [] {
      DecodeNoOutputs(rest, seen);
    } else {
      var ranges, tail := UnconsOutputs(outs, seen);
      DecodeOutputsOfEncode(tail, rest, seen || ranges == []);
      Regroup(Encode(|ranges|), EncodeRanges(ranges), EncodeOutputs(tail), rest);
      DecodeFirstOutput(
        EncodeOutputs(outs) + rest, ranges, EncodeOutputs(tail) + rest, |outs|, seen, tail, rest);
    }
  }

  lemma {:induction false} FindEmptyIs(outs: seq<seq<IndexRange>>, c: nat)
    requires c < |outs|
    requires forall k | 0 <= k < |outs| :: outs[k] == [] <==> k == c
    ensures FindEmpty(outs) == Some(c)
  {
    var n := |outs| - 1;
    if c == n {
      NoneEmpty(outs[..n]);
    } else {
      FindEmptyIs(outs[..n], c);
    }
  }

  lemma {:induction false} NoneEmpty(outs: seq<seq<IndexRange>>)
    requires forall k | 0 <= k < |outs| :: outs[k] != []
    ensures FindEmpty(outs) == None
  {
    if outs != [] {
      NoneEmpty(outs[..|outs| - 1]);
    }
  }

  lemma {:induction false} OnlyOneEmpty(outs: seq<seq<IndexRange>>, c: int)
    requires forall k | 0 <= k < |outs| :: outs[k] == [] <==> k == c
    ensures OneEmptyAtMost(outs, c < 0)
  {
    if outs != [] {
      forall k | 0 <= k < |outs[1..]| ensures outs[1..][k] == [] <==> k == c - 1 {
        assert outs[1..][k] == outs[k + 1];
      }
      OnlyOneEmpty(outs[1..], c - 1);
    }
  }

  /** Every valid mix message decodes back from its bytes. */
  lemma DecodeOfEncodeMix(d: MixData)
    requires ValidBasic(d) && FitsMemory(d)
    ensures DecodeMix(EncodeMix(d)) == Ok(d)
  {
    var outs := d.outputRanges;
    TakeOfEncode(|outs|, EncodeOutputs(outs));
    OnlyOneEmpty(outs, d.complementIndex);
    DecodeOutputsOfEncode(outs, [], false);
    assert EncodeOutputs(outs) + [] == EncodeOutputs(outs);
    FindEmptyIs(outs, d.complementIndex);
  }

  lemma PrependRange(
    bs: seq<byte>, bs1: seq<byte>, bs2: seq<byte>, r: IndexRange, tail: seq<IndexRange>, rs: seq<IndexRange>,
    rest: seq<byte>)
    requires rs == [r] + tail
    requires bs == Encode(r.start) + bs1 && bs1 == Encode(r.end) + bs2 && bs2 == EncodeRanges(tail) + rest
    ensures bs == EncodeRanges(rs) + rest
  {
    assert rs[1..] == tail;
    Regroup(Encode(r.start), Encode(r.end), EncodeRanges(tail), rest);
  }

  lemma PrependOutput(
    bs: seq<byte>, bs1: seq<byte>, bs2: seq<byte>, rs: seq<IndexRange>, tail: seq<seq<IndexRange>>,
    outs: seq<seq<IndexRange>>, rest: seq<byte>)
    requires outs == [rs] + tail
    requires bs == Encode(|rs|) + bs1 && bs1 == EncodeRanges(rs) + bs2 && bs2 == EncodeOutputs(tail) + rest
    ensures bs == EncodeOutputs(outs) + rest
  {
    assert outs[1..] == tail;
    Regroup(Encode(|rs|), EncodeRanges(rs), EncodeOutputs(tail), rest);
  }

  predicate ReadsRanges(bs: seq<byte>, n: nat, rs: seq<IndexRange>, rest: seq<byte>) {
    DecodeRanges(bs, n).Ok? && DecodeRanges(bs, n).value.0 == rs && DecodeRanges(bs, n).value.1 == rest
  }

  lemma FirstRange(bs: seq<byte>, n: nat, rs: seq<IndexRange>, rest: seq<byte>)
    returns (bs1: seq<byte>, bs2: seq<byte>, r: IndexRange, tail: seq<IndexRange>)
    requires n > 0 && ReadsRanges(bs, n, rs, rest)
    ensures ReadsRanges(bs2, n - 1, tail, rest)
    ensures rs == [r] + tail && bs == Encode(r.start) + bs1 && bs1 == Encode(r.end) + bs2
  {
    EncodeOfTake(bs);
    bs1 := TakeVarint(bs).value.1;
    EncodeOfTake(bs1);
    bs2 := TakeVarint(bs1).value.1;
    r := Span(TakeVarint(bs).value.0, TakeVarint(bs1).value.0);
    tail := DecodeRanges(bs2, n - 1).value.0;
  }

  lemma {:induction false} EncodeOfDecodeRanges(bs: seq<byte>, n: nat, rs: seq<IndexRange>, rest: seq<byte>)
    requires ReadsRanges(bs, n, rs, rest)
    ensures |rs| == n && bs == EncodeRanges(rs) + rest
    decreases n
  {
    if n > 0 {
      hide ReadsRanges, EncodeRanges, Encode;
      var bs1, bs2, r, tail := FirstRange(bs, n, rs, rest);
      EncodeOfDecodeRanges(bs2, n - 1, tail, rest);
      PrependRange(bs, bs1, bs2, r, tail, rs, rest);
    }
  }

  predicate ReadsOutputs(bs: seq<byte>, n: nat, seen: bool, outs: seq<seq<IndexRange>>, rest: seq<byte>) {
    && DecodeOutputs(bs, n, seen).Ok?
    && DecodeOutputs(bs, n, seen).value.0 == outs && DecodeOutputs(bs, n, seen).value.1 == rest
  }

  lemma FirstOutput(bs: seq<byte>, n: nat, seen: bool, outs: seq<seq<IndexRange>>, rest: seq<byte>)
    returns (bs1: seq<byte>, bs2: seq<byte>, rs: seq<IndexRange>, tail: seq<seq<IndexRange>>)
    requires n > 0 && ReadsOutputs(bs, n, seen, outs, rest)
    ensures ReadsOutputs(bs2, n - 1, seen || rs == [], tail, rest)
    ensures outs == [rs] + tail && |rs| <= USIZE_MAX
    ensures bs == Encode(|rs|) + bs1 && bs1 == EncodeRanges(rs) + bs2
  {
    EncodeOfTake(bs);
    bs1 := TakeVarint(bs).value.1;
    rs := DecodeOutput(bs, seen).value.0;
    bs2 := DecodeOutput(bs, seen).value.1;
    EncodeOfDecodeRanges(bs1, TakeVarint(bs).value.0, rs, bs2);
    tail := DecodeOutputs(bs2, n - 1, seen || rs == []).value.0;
  }

  lemma {:induction false} EncodeOfDecodeOutputs(
    bs: seq<byte>, n: nat, seen: bool, outs: seq<seq<IndexRange>>, rest: seq<byte>)
    requires ReadsOutputs(bs, n, seen, outs, rest)
    ensures |outs| == n && bs == EncodeOutputs(outs) + rest
    decreases n
  {
    if n > 0 {
      hide ReadsOutputs, EncodeOutputs, EncodeRanges, Encode;
      var bs1, bs2, rs, tail := FirstOutput(bs, n, seen, outs, rest);
      EncodeOfDecodeOutputs(bs2, n - 1, seen || rs == [], tail, rest);
      PrependOutput(bs, bs1, bs2, rs, tail, outs, rest);
    }
  }

  lemma {:induction false} DecodedOutputsFit(
    bs: seq<byte>, n: nat, seen: bool, outs: seq<seq<IndexRange>>, rest: seq<byte>)
    requires ReadsOutputs(bs, n, seen, outs, rest)
    ensures forall k | 0 <= k < |outs| :: |outs[k]| <= USIZE_MAX
    decreases n
  {
    if n > 0 {
      hide ReadsOutputs, EncodeRanges, Encode;
      var bs1, bs2, rs, tail := FirstOutput(bs, n, seen, outs, rest);
      DecodedOutputsFit(bs2, n - 1, seen || rs == [], tail, rest);
    }
  }

  /** Every byte string that decodes is the encoding of what it decodes to. */
  lemma EncodeOfDecodeMix(bs: seq<byte>)
    requires DecodeMix(bs).Ok?
    ensures EncodeMix(DecodeMix(bs).value) == bs
    ensures ValidBasic(DecodeMix(bs).value) && FitsMemory(DecodeMix(bs).value)
  {
    EncodeOfTake(bs);
    var (n, bs1) := TakeVarint(bs).value;
    var (outs, rest) := DecodeOutputs(bs1, n, false).value;
    EncodeOfDecodeOutputs(bs1, n, false, outs, rest);
    DecodedOutputsFit(bs1, n, false, outs, rest);
    assert EncodeOutputs(outs) + rest == EncodeOutputs(outs);
  }

  // ---------------------------------------------------------------------------
  // The encoding and decoding loops
  // ---------------------------------------------------------------------------

  method EncodeRangesInto(ranges: seq<IndexRange>, out0: seq<byte>) returns (out: seq<byte>)
    ensures out == out0 + EncodeRanges(ranges)
  {
    out := out0;
    for i := 0 to |ranges|
      invariant out + EncodeRanges(ranges[i..]) == out0 + EncodeRanges(ranges)
    {
      var before := out;
      out := EncodeInto(ranges[i].start, out);
      out := EncodeInto(ranges[i].end, out);
      assert ranges[i..][0] == ranges[i] && ranges[i..][1..] == ranges[i + 1..];
      Reassoc(before, Encode(ranges[i].start), Encode(ranges[i].end), EncodeRanges(ranges[i + 1..]));
    }
  }

  lemma EncodeOutputsStep(out: seq<byte>, outs: seq<seq<IndexRange>>, k: nat)
    requires k < |outs|
    ensures out + EncodeOutputs(outs[k..])
         == out + Encode(|outs[k]|) + EncodeRanges(outs[k]) + EncodeOutputs(outs[k + 1..])
  {
    assert outs[k..][0] == outs[k] && outs[k..][1..] == outs[k + 1..];
    Reassoc(out, Encode(|outs[k]|), EncodeRanges(outs[k]), EncodeOutputs(outs[k + 1..]));
  }

  method EncodeOutputsInto(outs: seq<seq<IndexRange>>, complementIndex: nat, out0: seq<byte>) returns (out: seq<byte>)
    requires complementIndex < |outs| && outs[complementIndex] == []
    ensures out == out0 + EncodeOutputs(outs)
  {
    out := out0;
    for k := 0 to |outs|
      invariant out + EncodeOutputs(outs[k..]) == out0 + EncodeOutputs(outs)
    {
      EncodeOutputsStep(out, outs, k);
      var rangeCount := if k == complementIndex then 0 else |outs[k]|;
      out := EncodeInto(rangeCount, out);
      if k == complementIndex {
        assert EncodeRanges(outs[k]) == [];
        continue;
      }
      out := EncodeRangesInto(outs[k], out);
    }
  }

  method ToBytes(d: MixData) returns (out: seq<byte>)
    requires ValidBasic(d)
    ensures out == EncodeMix(d)
  {
    hide Encode, EncodeOutputs, NoSharedIndex, WfRanges;
    out := EncodeInto(|d.outputRanges|, []);
    out := EncodeOutputsInto(d.outputRanges, d.complementIndex, out);
  }

  lemma DecodeRangesStep(acc: seq<IndexRange>, bs: seq<byte>, n: nat)
    requires n > 0
    ensures TakeVarint(bs).Err? ==> After(acc, DecodeRanges(bs, n)) == Err(TakeVarint(bs).error)
    ensures TakeVarint(bs).Ok? ==>
      var (start, bs1) := TakeVarint(bs).value;
      if TakeVarint(bs1).Err? then After(acc, DecodeRanges(bs, n)) == Err(TakeVarint(bs1).error)
      else
        var (end, bs2) := TakeVarint(bs1).value;
        if start >= end then After(acc, DecodeRanges(bs, n)) == Err(TxError)
        else After(acc, DecodeRanges(bs, n)) == After(acc + [Span(start, end)], DecodeRanges(bs2, n - 1))
  {
    if TakeVarint(bs).Ok? && TakeVarint(TakeVarint(bs).value.1).Ok? {
      var (start, bs1) := TakeVarint(bs).value;
      var (end, bs2) := TakeVarint(bs1).value;
      var r := DecodeRanges(bs2, n - 1);
      if r.Ok? {
        AfterCons(acc, Span(start, end), r);
      }
    }
  }

  method TakeRanges(bytes: seq<byte>, cursor0: nat, count: nat)
    returns (r: Result<(seq<IndexRange>, nat), Brc721Error>)
    requires cursor0 <= |bytes|
    ensures match DecodeRanges(bytes[cursor0..], count)
            case Ok((rs, rest)) =>
              r.Ok? && r.value.0 == rs && r.value.1 <= |bytes| && bytes[r.value.1..] == rest
            case Err(e) => r == Err(e)
  {
    var cursor: nat := cursor0;
    var ranges: seq<IndexRange> := [];
    AfterNothing(DecodeRanges(bytes[cursor0..], count));
    for i := 0 to count
      invariant cursor <= |bytes|
      invariant DecodeRanges(bytes[cursor0..], count) == After(ranges, DecodeRanges(bytes[cursor..], count - i))
    {
      DecodeRangesStep(ranges, bytes[cursor..], count - i);
      var start := TakeVarintAt(bytes, cursor);
      if start.Err? {
        return Err(start.error);
      }
      var end := TakeVarintAt(bytes, start.value.1);
      if end.Err? {
        return Err(end.error);
      }
      if start.value.0 >= end.value.0 {
        return Err(TxError);
      }
      ranges := ranges + [Span(start.value.0, end.value.0)];
      cursor := end.value.1;
    }
    assert ranges + [] == ranges;
    return Ok((ranges, cursor));
  }

  /** What decoding comes to once `acc` is read and `n` more outputs are to be read from `bs`. */
  function Pending(acc: seq<seq<IndexRange>>, bs: seq<byte>, n: nat, seen: bool)
    : Result<(seq<seq<IndexRange>>, seq<byte>), Brc721Error>
  {
    After(acc, DecodeOutputs(bs, n, seen))
  }

  lemma PendingStart(bs: seq<byte>, n: nat)
    ensures Pending([], bs, n, false) == DecodeOutputs(bs, n, false)
    ensures FindEmpty([]).None?
  {
    AfterNothing(DecodeOutputs(bs, n, false));
  }

  lemma PendingDone(acc: seq<seq<IndexRange>>, bs: seq<byte>, seen: bool)
    ensures Pending(acc, bs, 0, seen) == Ok((acc, bs))
  {
    assert acc + [] == acc;
  }

  lemma PendingStep(acc: seq<seq<IndexRange>>, bs: seq<byte>, n: nat, seen: bool)
    requires n > 0
    ensures match DecodeOutput(bs, seen)
            case Ok((ranges, bs1)) =>
              Pending(acc, bs, n, seen) == Pending(acc + [ranges], bs1, n - 1, seen || ranges == [])
            case Err(e) => Pending(acc, bs, n, seen) == Err(e)
  {
    if DecodeOutput(bs, seen).Ok? {
      var (ranges, bs1) := DecodeOutput(bs, seen).value;
      var r := DecodeOutputs(bs1, n - 1, seen || ranges == []);
      if r.Ok? {
        AfterCons(acc, ranges, r);
      }
    }
  }

  method TakeOutput(bytes: seq<byte>, cursor: nat, seen: bool)
    returns (r: Result<(seq<IndexRange>, nat), Brc721Error>)
    requires cursor <= |bytes|
    ensures match DecodeOutput(bytes[cursor..], seen)
            case Ok((ranges, rest)) =>
              r.Ok? && r.value.0 == ranges && r.value.1 <= |bytes| && bytes[r.value.1..] == rest
            case Err(e) => r == Err(e)
  {
    var c := TakeVarintAt(bytes, cursor);
    if c.Err? {
      return Err(c.error);
    }
    var rangeCount := c.value.0;
    if rangeCount > USIZE_MAX {
      return Err(TxError);
    }
    if rangeCount == 0 {
      if seen {
        return Err(TxError);
      }
      return Ok(([], c.value.1));
    }
    r := TakeRanges(bytes, c.value.1, rangeCount);
  }

  lemma FindEmptyPush(outs: seq<seq<IndexRange>>, ranges: seq<IndexRange>)
    ensures FindEmpty(outs + [ranges])
         == if FindEmpty(outs).Some? then FindEmpty(outs) else if ranges == [] then Some(|outs|) else None
  {
    assert (outs + [ranges])[..|outs|] == outs;
  }

  /** Reads output `|outs|` and notes whether it is the complement. */
  method TakeNextOutput(
    bytes: seq<byte>, cursor: nat, outs: seq<seq<IndexRange>>, complementIndex: Option<nat>)
    returns (r: Result<(seq<IndexRange>, Option<nat>, nat), Brc721Error>)
    requires cursor <= |bytes| && complementIndex == FindEmpty(outs)
    ensures match DecodeOutput(bytes[cursor..], complementIndex.Some?)
            case Ok((ranges, rest)) =>
              && r.Ok? && r.value.0 == ranges && (r.value.1.Some? <==> complementIndex.Some? || ranges == [])
              && r.value.2 <= |bytes| && bytes[r.value.2..] == rest
            case Err(e) => r == Err(e)
    ensures r.Ok? ==> r.value.1 == FindEmpty(outs + [r.value.0])
  {
    var next := TakeOutput(bytes, cursor, complementIndex.Some?);
    if next.Err? {
      return Err(next.error);
    }
    var (ranges, end) := next.value;
    FindEmptyPush(outs, ranges);
    var complement := if |ranges| == 0 && complementIndex.None? then Some(|outs|) else complementIndex;
    return Ok((ranges, complement, end));
  }

  method TakeOutputs(bytes: seq<byte>, cursor0: nat, count: nat)
    returns (r: Result<(seq<seq<IndexRange>>, Option<nat>, nat), Brc721Error>)
    requires cursor0 <= |bytes|
    ensures match DecodeOutputs(bytes[cursor0..], count, false)
            case Ok((outs, rest)) =>
              && r.Ok? && r.value.0 == outs && r.value.1 == FindEmpty(outs)
              && r.value.2 <= |bytes| && bytes[r.value.2..] == rest
            case Err(e) => r == Err(e)
  {
    hide DecodeOutput, DecodeOutputs, FindEmpty, Pending;
    var cursor: nat := cursor0;
    var outs: seq<seq<IndexRange>> := [];
    var complementIndex: Option<nat> := None;
    ghost var goal := DecodeOutputs(bytes[cursor0..], count, false);
    PendingStart(bytes[cursor0..], count);
    for index := 0 to count
      invariant cursor <= |bytes| && complementIndex == FindEmpty(outs)
      invariant goal == Pending(outs, bytes[cursor..], count - index, complementIndex.Some?)
    {
      PendingStep(outs, bytes[cursor..], count - index, complementIndex.Some?);
      var next := TakeNextOutput(bytes, cursor, outs, complementIndex);
      if next.Err? {
        return Err(next.error);
      }
      outs := outs + [next.value.0];
      complementIndex := next.value.1;
      cursor := next.value.2;
    }
    PendingDone(outs, bytes[cursor..], complementIndex.Some?);
    return Ok((outs, complementIndex, cursor));
  }

  method TryFrom(bytes: seq<byte>) returns (r: Result<MixData, Brc721Error>)
    ensures r == DecodeMix(bytes)
  {
    assert bytes[0..] == bytes;
    var c := TakeVarintAt(bytes, 0);
    if c.Err? {
      return Err(c.error);
    }
    var (outputCount, cursor) := c.value;
    if outputCount > USIZE_MAX {
      return Err(TxError);
    }
    if outputCount < 1 {
      return Err(TxError);
    }
    var outs := TakeOutputs(bytes, cursor, outputCount);
    if outs.Err? {
      return Err(outs.error);
    }
    var (outputRanges, complement, end) := outs.value;
    if end != |bytes| {
      return Err(InvalidLength(end, |bytes|));
    }
    if complement.None? {
      return Err(TxError);
    }
    var data := MixData(outputRanges, complement.value);
    var valid := ValidateBasic(data);
    if valid.Err? {
      return Err(valid.error);
    }
    return Ok(data);
  }
}
