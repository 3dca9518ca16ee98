/**
  The text forms of ranges: what `--slots` and `--output` accept, and what the wallet prints.
  */
module RangeText {
  import opened Prelude
  import opened Spans
  import opened Text
  import opened RangeMerge
  import Ownership = OwnershipPayload
  import MixPayload
  import VarInt96

  datatype ParseError = ParseError

  /** `parse_slot_str` and `parse_index_str`. */
  function ParseBounded(s: string, max: nat): Result<nat, ParseError> {
    var raw := Trim(s);
    if raw == [] then Err(ParseError)
    else match ParseU128(raw)
      case None => Err(ParseError)
      case Some(v) => if v > max then Err(ParseError) else Ok(v)
  }

  // ---------------------------------------------------------------------------
  // One range
  // ---------------------------------------------------------------------------

  const INCLUSIVE := "..="
  const HALF_OPEN := ".."

  function SlotPart(text: string): Result<Span, ParseError> {
    var part := Trim(text);
    if part == [] then Err(ParseError)
    else match SplitOnce(part, INCLUSIVE)
      case Some((a, b)) =>
        var start :- ParseBounded(a, Ownership.MAX_SLOT);
        var end :- ParseBounded(b, Ownership.MAX_SLOT);
        if start >= end then Err(ParseError) else Ok(Span(start, end))
      case None =>
        var single :- ParseBounded(part, Ownership.MAX_SLOT);
        Ok(Span(single, single))
  }

  function IndexPart(text: string): Result<Span, ParseError> {
    var part := Trim(text);
    if part == [] then Err(ParseError)
    else match SplitOnce(part, INCLUSIVE)
      case Some((a, b)) =>
        var start :- ParseBounded(a, VarInt96.MAX_VALUE);
        var end :- ParseBounded(b, VarInt96.MAX_VALUE);
        if start > end || end == VarInt96.MAX_VALUE then Err(ParseError) else Ok(Span(start, end + 1))
      case None =>
        match SplitOnce(part, HALF_OPEN)
        case Some((a, b)) =>
          var start :- ParseBounded(a, VarInt96.MAX_VALUE);
          var end :- ParseBounded(b, VarInt96.MAX_VALUE);
          if start >= end then Err(ParseError) else Ok(Span(start, end))
        case None =>
          var single :- ParseBounded(part, VarInt96.MAX_VALUE);
          if single == VarInt96.MAX_VALUE then Err(ParseError) else Ok(Span(single, single + 1))
  }

  // ---------------------------------------------------------------------------
  // A list of ranges
  // ---------------------------------------------------------------------------

  function ParseParts(parts: seq<string>, parse: string -> Result<Span, ParseError>): Result<seq<Span>, ParseError> {
    if parts == [] then Ok([])
    else
      var n := |parts| - 1;
      var before :- ParseParts(parts[..n], parse);
      var next :- parse(parts[n]);
      Ok(before + [next])
  }

  /** Comma-separated ranges, no two of which share a position. */
  ghost function ParseRanges(s: string, parse: string -> Result<Span, ParseError>, gap: nat)
    : Result<seq<Span>, ParseError>
  {
    if Trim(s) == [] then Err(ParseError)
    else
      var ranges :- ParseParts(Split(Trim(s), ','), parse);
      if NoSharedIndex(ranges, Itself, gap) then Ok(ranges) else Err(ParseError)
  }

  lemma {:induction false} PartsStopped(parts: seq<string>, parse: string -> Result<Span, ParseError>, n: nat)
    requires n <= |parts| && ParseParts(parts[..n], parse).Err?
    ensures ParseParts(parts, parse) == Err(ParseError)
    decreases |parts|
  {
    if n == |parts| {
      assert parts[..n] == parts;
      assert ParseParts(parts, parse).error.ParseError?;
    } else {
      assert parts[..|parts| - 1][..n] == parts[..n];
      PartsStopped(parts[..|parts| - 1], parse, n);
    }
  }

  lemma PartsNext(parts: seq<string>, parse: string -> Result<Span, ParseError>, i: nat)
    requires i < |parts| && ParseParts(parts[..i], parse).Ok?
    ensures ParseParts(parts[..i + 1], parse)
         == if parse(parts[i]).Ok? then Ok(ParseParts(parts[..i], parse).value + [parse(parts[i]).value])
            else Err(ParseError)
  {
    assert parts[..i + 1][..i] == parts[..i];
    assert parse(parts[i]).Err? ==> parse(parts[i]).error.ParseError?;
  }

  lemma {:induction false} PartsEach(parts: seq<string>, parse: string -> Result<Span, ParseError>, k: nat)
    requires ParseParts(parts, parse).Ok?
    ensures |ParseParts(parts, parse).value| == |parts|
    ensures k < |parts| ==> parse(parts[k]) == Ok(ParseParts(parts, parse).value[k])
    decreases |parts|
  {
    if parts != [] {
      PartsEach(parts[..|parts| - 1], parse, k);
    }
  }

  lemma {:induction false} PartsFrom(parts: seq<string>, parse: string -> Result<Span, ParseError>, ranges: seq<Span>)
    requires |parts| == |ranges| && forall k | 0 <= k < |parts| :: parse(parts[k]) == Ok(ranges[k])
    ensures ParseParts(parts, parse) == Ok(ranges)
    decreases |parts|
  {
    if parts != [] {
      var n := |parts| - 1;
      PartsFrom(parts[..n], parse, ranges[..n]);
      assert ranges == ranges[..n] + [ranges[n]];
    }
  }

  // ---------------------------------------------------------------------------
  // The code of from_str
  // ---------------------------------------------------------------------------

  lemma SlotPartWf(text: string)
    requires SlotPart(text).Ok?
    ensures Ownership.WfSlots(SlotPart(text).value)
  {
  }

  lemma IndexPartWf(text: string)
    requires IndexPart(text).Ok?
    ensures MixPayload.WfRange(IndexPart(text).value)
  {
  }

  method SlotRangesFromStr(s: string) returns (r: Result<seq<Span>, ParseError>)
    ensures r == ParseRanges(s, SlotPart, 1)
  {
    var raw := Trim(s);
    if raw == [] {
      return Err(ParseError);
    }
    var parts := Split(raw, ',');
    var ranges: seq<Span> := [];
    for i := 0 to |parts|
      invariant ParseParts(parts[..i], SlotPart) == Ok(ranges)
      invariant forall x | x in ranges :: Ownership.WfSlots(x)
    {
      PartsNext(parts, SlotPart, i);
      var next := SlotPart(parts[i]);
      if next.Err? {
        PartsStopped(parts, SlotPart, i + 1);
        return Err(ParseError);
      }
      SlotPartWf(parts[i]);
      ranges := ranges + [next.value];
    }
    assert parts[..|parts|] == parts;
    var overlap := FindOverlap(ranges, 1);
    return if overlap then Err(ParseError) else Ok(ranges);
  }

  method IndexRangesFromStr(s: string) returns (r: Result<seq<Span>, ParseError>)
    ensures r == ParseRanges(s, IndexPart, 0)
  {
    var raw := Trim(s);
    if raw == [] {
      return Err(ParseError);
    }
    var parts := Split(raw, ',');
    var ranges: seq<Span> := [];
    for i := 0 to |parts|
      invariant ParseParts(parts[..i], IndexPart) == Ok(ranges)
      invariant forall x | x in ranges :: MixPayload.WfRange(x)
    {
      PartsNext(parts, IndexPart, i);
      var next := IndexPart(parts[i]);
      if next.Err? {
        PartsStopped(parts, IndexPart, i + 1);
        return Err(ParseError);
      }
      IndexPartWf(parts[i]);
      ranges := ranges + [next.value];
    }
    assert parts[..|parts|] == parts;
    var overlap := FindOverlap(ranges, 0);
    return if overlap then Err(ParseError) else Ok(ranges);
  }

  /** What parses is a group the register-ownership message accepts. */
  lemma ParsedSlotsValid(s: string)
    requires ParseRanges(s, SlotPart, 1).Ok?
    ensures var rs := ParseRanges(s, SlotPart, 1).value;
            rs != [] && Ownership.WfGroup(rs) && NoSharedIndex(rs, Itself, 1)
  {
    var parts := Split(Trim(s), ',');
    var rs := ParseRanges(s, SlotPart, 1).value;
    PartsEach(parts, SlotPart, 0);
    forall k | 0 <= k < |rs| ensures Ownership.WfSlots(rs[k]) {
      PartsEach(parts, SlotPart, k);
      SlotPartWf(parts[k]);
    }
  }

  /** What parses is a range list a mix output accepts. */
  lemma ParsedIndicesValid(s: string)
    requires ParseRanges(s, IndexPart, 0).Ok?
    ensures var rs := ParseRanges(s, IndexPart, 0).value;
            rs != [] && MixPayload.WfRanges(rs) && NoSharedIndex(rs, Itself, 0)
  {
    var parts := Split(Trim(s), ',');
    var rs := ParseRanges(s, IndexPart, 0).value;
    PartsEach(parts, IndexPart, 0);
    forall k | 0 <= k < |rs| ensures MixPayload.WfRange(rs[k]) {
      PartsEach(parts, IndexPart, k);
      IndexPartWf(parts[k]);
    }
  }

  // ---------------------------------------------------------------------------
  // Printing, and reading back
  // ---------------------------------------------------------------------------

  function Render(r: Span): string {
    if r.start == r.end then Decimal(r.start) else Decimal(r.start) + INCLUSIVE + Decimal(r.end)
  }

  function Rendered(rs: seq<Span>): seq<string> {
    seq(|rs|, i requires 0 <= i < |rs| => Render(rs[i]))
  }

  function FormatRanges(rs: seq<Span>): string {
    Join(Rendered(rs), ',')
  }

  /** Starts and ends with a digit, and holds neither commas nor white space. */
  predicate Bare(s: string) {
    && s != [] && IsDigit(s[0]) && IsDigit(s[|s| - 1])
    && forall i | 0 <= i < |s| :: IsDigit(s[i]) || s[i] == '.' || s[i] == '='
  }

  lemma DecimalBare(n: nat)
    ensures Bare(Decimal(n)) && Free(Decimal(n), '.')
  {
    DecimalReadsBack(n);
    assert IsDigit(Decimal(n)[0]) && IsDigit(Decimal(n)[|Decimal(n)| - 1]);
  }

  lemma RenderBare(r: Span)
    ensures Bare(Render(r)) && Free(Render(r), ',')
  {
    DecimalBare(r.start);
    DecimalBare(r.end);
  }

  lemma BareTrims(s: string)
    requires Bare(s)
    ensures Trim(s) == s
  {
    TrimBare(s);
  }

  lemma BoundReadsBack(n: nat, max: nat)
    requires n <= max <= U128_MAX
    ensures ParseBounded(Decimal(n), max) == Ok(n)
  {
    DecimalBare(n);
    BareTrims(Decimal(n));
    ParseDecimal(n);
  }

  lemma RangeReadsBack(r: Span)
    requires Ownership.WfSlots(r)
    ensures SlotPart(Render(r)) == Ok(r)
  {
    RenderBare(r);
    BareTrims(Render(r));
    BoundReadsBack(r.start, Ownership.MAX_SLOT);
    BoundReadsBack(r.end, Ownership.MAX_SLOT);
    DecimalBare(r.start);
    if r.start == r.end {
      SplitOnceNowhere(Decimal(r.start), INCLUSIVE);
    } else {
      SplitOnceAt(Decimal(r.start), INCLUSIVE, Decimal(r.end));
    }
  }

  // ---------------------------------------------------------------------------
  // What each written form means
  // ---------------------------------------------------------------------------

  /** A number as a user may write it, with white space around it. */
  datatype Written = Written(before: string, number: nat, after: string)

  predicate WfWritten(w: Written) {
    Blank(w.before) && Blank(w.after)
  }

  function Spelled(w: Written): string {
    w.before + Decimal(w.number) + w.after
  }

  lemma SpelledTrims(w: Written)
    requires WfWritten(w)
    ensures Trim(Spelled(w)) == Decimal(w.number) && Free(Spelled(w), '.')
  {
    DecimalBare(w.number);
    TrimPadded(w.before, Decimal(w.number), w.after);
  }

  lemma BoundReads(w: Written, max: nat)
    requires WfWritten(w) && max <= U128_MAX
    ensures ParseBounded(Spelled(w), max) == if w.number <= max then Ok(w.number) else Err(ParseError)
  {
    SpelledTrims(w);
    DecimalReadsBack(w.number);
    assert IsDigit(Decimal(w.number)[0]);
  }

  /** A text of two numbers loses its outer white space, and its separator is found where it stands. */
  lemma PairTrims(a: Written, sep: string, b: Written) returns (left: string, right: string)
    requires WfWritten(a) && WfWritten(b) && sep != [] && sep[0] == '.'
    ensures left == Spelled(a.(before := [])) && right == Spelled(b.(after := []))
    ensures Trim(Spelled(a) + sep + Spelled(b)) == left + sep + right
    ensures left + sep + right != []
    ensures SplitOnce(left + sep + right, sep) == Some((left, right)) && Free(left, '.')
  {
    left, right := Spelled(a.(before := [])), Spelled(b.(after := []));
    var core := left + sep + right;
    DecimalBare(a.number);
    DecimalBare(b.number);
    assert core[0] == Decimal(a.number)[0];
    assert core[|core| - 1] == Decimal(b.number)[|Decimal(b.number)| - 1];
    TrimPadded(a.before, core, b.after);
    assert Spelled(a) + sep + Spelled(b) == a.before + core + b.after;
    SplitOnceAt(left, sep, right);
  }

  lemma {:induction false} OtherSeparator(a: string, b: string)
    requires Free(a, '.') && Free(b, '.') && (b == [] || b[0] != '=')
    ensures SplitOnce(a + HALF_OPEN + b, INCLUSIVE) == None
    decreases |a|
  {
    var s := a + HALF_OPEN + b;
    if a == [] {
      SplitOnceNowhere(b, INCLUSIVE);
      assert s[2..] == b;
      assert s[1..][1..] == b;
      assert s[1] == '.';
      if |s| >= 3 {
        assert s[..3][2] == b[0];
      }
      if |s[1..]| >= 3 {
        assert s[1..][..3][1] == b[0];
      }
    } else {
      assert s[1..] == a[1..] + HALF_OPEN + b;
      OtherSeparator(a[1..], b);
      if |s| >= 3 {
        assert s[..3][0] == a[0];
      }
    }
  }

  /** `a..b` leaves out its end. */
  lemma HalfOpenReads(a: Written, b: Written)
    requires WfWritten(a) && WfWritten(b)
    ensures IndexPart(Spelled(a) + ".." + Spelled(b))
         == if a.number < b.number <= VarInt96.MAX_VALUE then Ok(Span(a.number, b.number)) else Err(ParseError)
  {
    hide Trim, SplitOnce, ParseBounded, Spelled;
    var left, right := PairTrims(a, HALF_OPEN, b);
    RightOpens(b);
    SpelledTrims(b.(after := []));
    OtherSeparator(left, right);
    BoundReads(a.(before := []), VarInt96.MAX_VALUE);
    BoundReads(b.(after := []), VarInt96.MAX_VALUE);
  }

  lemma RightOpens(b: Written)
    requires WfWritten(b)
    ensures Spelled(b.(after := [])) != [] && Spelled(b.(after := []))[0] != '='
  {
    DecimalBare(b.number);
    assert b.before != [] ==> IsSpace(b.before[0]);
  }

  /** `a..=b` includes its end. */
  lemma InclusiveReads(a: Written, b: Written)
    requires WfWritten(a) && WfWritten(b)
    ensures IndexPart(Spelled(a) + "..=" + Spelled(b))
         == if a.number <= b.number < VarInt96.MAX_VALUE then Ok(Span(a.number, b.number + 1)) else Err(ParseError)
  {
    hide Trim, SplitOnce, ParseBounded, Spelled;
    var left, right := PairTrims(a, INCLUSIVE, b);
    BoundReads(a.(before := []), VarInt96.MAX_VALUE);
    BoundReads(b.(after := []), VarInt96.MAX_VALUE);
  }

  /** One number is the range of that index alone. */
  lemma SingleReads(a: Written)
    requires WfWritten(a)
    ensures IndexPart(Spelled(a))
         == if a.number < VarInt96.MAX_VALUE then Ok(Span(a.number, a.number + 1)) else Err(ParseError)
  {
    hide Trim, SplitOnce, ParseBounded, Spelled;
    SpelledTrims(a);
    DecimalBare(a.number);
    SplitOnceNowhere(Decimal(a.number), INCLUSIVE);
    SplitOnceNowhere(Decimal(a.number), HALF_OPEN);
    BareTrims(Decimal(a.number));
    BareSpelled(a.number);
    BoundReads(Written([], a.number, []), VarInt96.MAX_VALUE);
  }

  lemma BareSpelled(n: nat)
    ensures Spelled(Written([], n, [])) == Decimal(n)
  {
  }

  /** Slots are written as `a..=b`, both ends included and different, or one at a time. */
  lemma SlotsRead(a: Written, b: Written)
    requires WfWritten(a) && WfWritten(b)
    ensures SlotPart(Spelled(a) + "..=" + Spelled(b))
         == if a.number < b.number <= Ownership.MAX_SLOT then Ok(Span(a.number, b.number)) else Err(ParseError)
    ensures SlotPart(Spelled(a))
         == if a.number <= Ownership.MAX_SLOT then Ok(Span(a.number, a.number)) else Err(ParseError)
  {
    hide Trim, SplitOnce, ParseBounded, Spelled;
    var left, right := PairTrims(a, INCLUSIVE, b);
    BoundReads(a.(before := []), Ownership.MAX_SLOT);
    BoundReads(b.(after := []), Ownership.MAX_SLOT);
    SpelledTrims(a);
    DecimalBare(a.number);
    SplitOnceNowhere(Decimal(a.number), INCLUSIVE);
    BareTrims(Decimal(a.number));
    BareSpelled(a.number);
    BoundReads(Written([], a.number, []), Ownership.MAX_SLOT);
  }

  lemma {:induction false} JoinBare(parts: seq<string>)
    requires parts != [] && forall k | 0 <= k < |parts| :: Bare(parts[k])
    ensures Join(parts, ',') != []
    ensures IsDigit(Join(parts, ',')[0]) && IsDigit(Join(parts, ',')[|Join(parts, ',')| - 1])
    decreases |parts|
  {
    assert Bare(parts[0]);
    if |parts| > 1 {
      JoinBare(parts[1..]);
    }
  }

  /** Any non-empty list of disjoint ranges of slots reads back from its printed form. */
  lemma FormatReadsBack(rs: seq<Span>)
    requires rs != [] && Ownership.WfGroup(rs) && NoSharedIndex(rs, Itself, 1)
    ensures ParseRanges(FormatRanges(rs), SlotPart, 1) == Ok(rs)
  {
    var parts := Rendered(rs);
    forall k | 0 <= k < |parts|
      ensures Bare(parts[k]) && Free(parts[k], ',') && SlotPart(parts[k]) == Ok(rs[k])
    {
      RenderBare(rs[k]);
      RangeReadsBack(rs[k]);
    }
    JoinBare(parts);
    TrimBare(FormatRanges(rs));
    SplitJoined(parts, ',');
    PartsFrom(parts, SlotPart, rs);
  }

  lemma NormalSharesNothing(rs: seq<Span>)
    requires Normal(rs)
    ensures NoSharedIndex(rs, Itself, 1)
  {
  }

  /** What the wallet prints for its merged ranges, the register command reads back. */
  lemma MergedReadsBack(ranges: seq<Span>)
    requires ranges != [] && forall r | r in ranges :: Ownership.WfSlots(r)
    ensures ParseRanges(FormatRanges(Merged(ranges)), SlotPart, 1) == Ok(Merged(ranges))
  {
    var m := Merged(ranges);
    MergedNormal(ranges);
    NormalSharesNothing(m);
    MergedCovers(ranges, ranges[0].start);
    assert ranges[0] in ranges && Contains(ranges[0], 1, ranges[0].start);
    forall k | 0 <= k < |m| ensures Ownership.WfSlots(m[k]) {
      MergedCovers(ranges, m[k].end);
      assert m[k] in m && Contains(m[k], 1, m[k].end);
    }
    FormatReadsBack(m);
  }

  /** The three ways to write a range of indices. */
  datatype IndexForm = Single(at: nat) | HalfOpen(from: nat, to: nat) | Inclusive(first: nat, last: nat)

  function FormText(form: IndexForm): string {
    match form
    case Single(at) => Decimal(at)
    case HalfOpen(from, to) => Decimal(from) + ".." + Decimal(to)
    case Inclusive(first, last) => Decimal(first) + "..=" + Decimal(last)
  }

  predicate WfForm(form: IndexForm) {
    match form
    case Single(at) => at < VarInt96.MAX_VALUE
    case HalfOpen(from, to) => from < to <= VarInt96.MAX_VALUE
    case Inclusive(first, last) => first <= last < VarInt96.MAX_VALUE
  }

  function FormSpan(form: IndexForm): Span {
    match form
    case Single(at) => Span(at, at + 1)
    case HalfOpen(from, to) => Span(from, to)
    case Inclusive(first, last) => Span(first, last + 1)
  }

  lemma FormReads(form: IndexForm)
    ensures Bare(FormText(form)) && Free(FormText(form), ',')
    ensures IndexPart(FormText(form)) == if WfForm(form) then Ok(FormSpan(form)) else Err(ParseError)
  {
    hide IndexPart, Decimal, Spelled;
    match form {
      case Single(at) =>
        DecimalBare(at);
        BareSpelled(at);
        SingleReads(Written([], at, []));
      case HalfOpen(from, to) =>
        DecimalBare(from);
        DecimalBare(to);
        BareSpelled(from);
        BareSpelled(to);
        HalfOpenReads(Written([], from, []), Written([], to, []));
      case Inclusive(first, last) =>
        DecimalBare(first);
        DecimalBare(last);
        BareSpelled(first);
        BareSpelled(last);
        InclusiveReads(Written([], first, []), Written([], last, []));
    }
  }

  function FormTexts(forms: seq<IndexForm>): seq<string> {
    seq(|forms|, k requires 0 <= k < |forms| => FormText(forms[k]))
  }

  function FormSpans(forms: seq<IndexForm>): seq<Span> {
    seq(|forms|, k requires 0 <= k < |forms| => FormSpan(forms[k]))
  }

  /** A comma-separated list means its ranges, in order; one bad range, or a position asked for twice, refuses it. */
  lemma ListReads(forms: seq<IndexForm>)
    requires forms != []
    ensures var text := Join(FormTexts(forms), ',');
            && text != [] && IsDigit(text[0])
            && ParseRanges(text, IndexPart, 0)
               == if (forall k | 0 <= k < |forms| :: WfForm(forms[k])) && NoSharedIndex(FormSpans(forms), Itself, 0)
                  then Ok(FormSpans(forms)) else Err(ParseError)
  {
    hide IndexPart, Trim, Split, Join, FormText, FormSpan, NoSharedIndex;
    var parts := FormTexts(forms);
    forall k | 0 <= k < |parts|
      ensures Bare(parts[k]) && Free(parts[k], ',')
      ensures IndexPart(parts[k]) == if WfForm(forms[k]) then Ok(FormSpans(forms)[k]) else Err(ParseError)
    {
      FormReads(forms[k]);
    }
    JoinBare(parts);
    TrimBare(Join(parts, ','));
    SplitJoined(parts, ',');
    if forall k | 0 <= k < |forms| :: WfForm(forms[k]) {
      PartsFrom(parts, IndexPart, FormSpans(forms));
    } else {
      var bad :| 0 <= bad < |forms| && !WfForm(forms[bad]);
      if ParseParts(parts, IndexPart).Ok? {
        PartsEach(parts, IndexPart, bad);
        assert false;
      }
      assert ParseParts(parts, IndexPart).error.ParseError?;
    }
  }
}
