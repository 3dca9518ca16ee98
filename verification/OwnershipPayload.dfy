/**
  The register-ownership message: slot ranges for each owner output, its validity, and its byte form.
  */
module OwnershipPayload {
  import opened Prelude
  import opened Bytes
  import opened Spans
  import opened VarInt96

  /** Slots `start` to `end`, both included. */
  type SlotRange = Span
  type OwnershipGroup = seq<SlotRange>

  datatype RegisterOwnershipData = RegisterOwnershipData(
    collectionHeight: nat, collectionTxIndex: nat, groups: seq<OwnershipGroup>)

  const MAX_SLOT: nat := TWO_96 - 1

  predicate WfSlots(r: SlotRange) {
    r.start <= r.end <= MAX_SLOT
  }

  predicate WfGroup(g: OwnershipGroup) {
    forall i | 0 <= i < |g| :: WfSlots(g[i])
  }

  /** What `validate` accepts. */
  predicate Valid(d: RegisterOwnershipData) {
    d.groups != [] && forall k | 0 <= k < |d.groups| :: d.groups[k] != [] && WfGroup(d.groups[k])
  }

  /** The field types: `u64`, `u32`, and vectors no longer than `usize` can say. */
  predicate FitsTypes(d: RegisterOwnershipData) {
    && d.collectionHeight <= U64_MAX && d.collectionTxIndex <= U32_MAX
    && |d.groups| <= USIZE_MAX && forall k | 0 <= k < |d.groups| :: |d.groups[k]| <= USIZE_MAX
  }

  /** The complaint about one range: order first, then the bounds. */
  function RangeVerdict(r: SlotRange): Result<(), Brc721Error> {
    if r.start > r.end then Err(InvalidSlotRange(r.start, r.end))
    else if r.start > MAX_SLOT then Err(InvalidSlotNumber(r.start))
    else if r.end > MAX_SLOT then Err(InvalidSlotNumber(r.end))
    else Ok(())
  }

  /** The first complaint in a group. */
  function GroupVerdict(g: OwnershipGroup): Result<(), Brc721Error> {
    if g == [] then Ok(())
    else
      var _ :- RangeVerdict(g[0]);
      GroupVerdict(g[1..])
  }

  /** The first complaint in a list of groups. */
  function GroupsVerdict(gs: seq<OwnershipGroup>): Result<(), Brc721Error> {
    if gs == [] then Ok(())
    else if gs[0] == [] then Err(InvalidRangeCount(0))
    else
      var _ :- GroupVerdict(gs[0]);
      GroupsVerdict(gs[1..])
  }

  method ValidateGroup(group: OwnershipGroup) returns (r: Result<(), Brc721Error>)
    ensures r == GroupVerdict(group)
    ensures r.Ok? <==> WfGroup(group)
  {
    for i := 0 to |group|
      invariant forall j | 0 <= j < i :: WfSlots(group[j])
      invariant GroupVerdict(group) == GroupVerdict(group[i..])
    {
      if group[i].start > group[i].end {
        return Err(InvalidSlotRange(group[i].start, group[i].end));
      }
      if group[i].start > MAX_SLOT {
        return Err(InvalidSlotNumber(group[i].start));
      }
      if group[i].end > MAX_SLOT {
        return Err(InvalidSlotNumber(group[i].end));
      }
      assert group[i..][1..] == group[i + 1..];
    }
    return Ok(());
  }

  method Validate(d: RegisterOwnershipData) returns (r: Result<(), Brc721Error>)
    ensures r == if d.groups == [] then Err(InvalidGroupCount(0)) else GroupsVerdict(d.groups)
    ensures r.Ok? <==> Valid(d)
  {
    if |d.groups| == 0 {
      return Err(InvalidGroupCount(0));
    }
    for k := 0 to |d.groups|
      invariant forall j | 0 <= j < k :: d.groups[j] != [] && WfGroup(d.groups[j])
      invariant GroupsVerdict(d.groups) == GroupsVerdict(d.groups[k..])
    {
      if |d.groups[k]| == 0 {
        return Err(InvalidRangeCount(0));
      }
      var checked := ValidateGroup(d.groups[k]);
      if checked.Err? {
        return checked;
      }
      assert d.groups[k..][1..] == d.groups[k + 1..];
    }
    return Ok(());
  }

  // ---------------------------------------------------------------------------
  // Byte form
  // ---------------------------------------------------------------------------

  const SINGLE_SLOT: byte := 0
  const SLOT_RANGE: byte := 1

  function EncodeItem(r: SlotRange): seq<byte> {
    if r.start == r.end then [SINGLE_SLOT] + Encode(r.start) else [SLOT_RANGE] + (Encode(r.start) + Encode(r.end))
  }

  function EncodeItems(g: OwnershipGroup): seq<byte> {
    if g == [] then [] else EncodeItem(g[0]) + EncodeItems(g[1..])
  }

  function EncodeGroups(gs: seq<OwnershipGroup>): seq<byte> {
    if gs == [] then [] else Encode(|gs[0]|) + EncodeItems(gs[0]) + EncodeGroups(gs[1..])
  }

  function EncodeOwnership(d: RegisterOwnershipData): seq<byte> {
    Encode(d.collectionHeight) + (Encode(d.collectionTxIndex) + (Encode(|d.groups|) + EncodeGroups(d.groups)))
  }

  /** `total` is the length of the whole payload, which the length error reports. */
  function DecodeItem(bs: seq<byte>, total: nat): (r: Result<(SlotRange, seq<byte>), Brc721Error>)
    ensures r.Ok? ==> |r.value.1| <= |bs|
  {
    if bs == [] then Err(InvalidLength(total + 1, total))
    else if bs[0] == SINGLE_SLOT then
      var (slot, rest) :- TakeVarint(bs[1..]);
      Ok((Span(slot, slot), rest))
    else if bs[0] == SLOT_RANGE then
      var (start, bs1) :- TakeVarint(bs[1..]);
      var (end, rest) :- TakeVarint(bs1);
      if start > end then Err(InvalidSlotRange(start, end))
      else if start == end then Err(TxError)
      else Ok((Span(start, end), rest))
    else Err(TxError)
  }

  function DecodeItems(bs: seq<byte>, n: nat, total: nat): (r: Result<(OwnershipGroup, seq<byte>), Brc721Error>)
    ensures r.Ok? ==> |r.value.1| <= |bs|
    decreases n
  {
    if n == 0 then Ok(([], bs))
    else
      var (item, bs1) :- DecodeItem(bs, total);
      var (items, rest) :- DecodeItems(bs1, n - 1, total);
      Ok(([item] + items, rest))
  }

  function DecodeGroup(bs: seq<byte>, total: nat): (r: Result<(OwnershipGroup, seq<byte>), Brc721Error>)
    ensures r.Ok? ==> |r.value.1| <= |bs|
  {
    var (count, bs1) :- TakeVarint(bs);
    if count > USIZE_MAX then Err(TxError)
    else if count == 0 then Err(InvalidRangeCount(0))
    else DecodeItems(bs1, count, total)
  }

  function DecodeGroups(bs: seq<byte>, n: nat, total: nat)
    : (r: Result<(seq<OwnershipGroup>, seq<byte>), Brc721Error>)
    ensures r.Ok? ==> |r.value.1| <= |bs|
    decreases n
  {
    if n == 0 then Ok(([], bs))
    else
      var (group, bs1) :- DecodeGroup(bs, total);
      var (groups, rest) :- DecodeGroups(bs1, n - 1, total);
      Ok(([group] + groups, rest))
  }

  /** The group count and the groups: everything after the collection id. */
  function DecodeBody(bs: seq<byte>, total: nat): (r: Result<(seq<OwnershipGroup>, seq<byte>), Brc721Error>)
    ensures r.Ok? ==> |r.value.1| <= |bs|
  {
    var (count, bs1) :- TakeVarint(bs);
    if count > USIZE_MAX then Err(TxError)
    else if count == 0 then Err(InvalidGroupCount(0))
    else DecodeGroups(bs1, count, total)
  }

  function DecodeOwnership(bs: seq<byte>): Result<RegisterOwnershipData, Brc721Error> {
    var (height, bs1) :- TakeVarint(bs);
    if height > U64_MAX then Err(TxError)
    else
      var (txIndex, bs2) :- TakeVarint(bs1);
      if txIndex > U32_MAX then Err(TxError)
      else
        var (groups, rest) :- DecodeBody(bs2, |bs|);
        if rest != [] then Err(InvalidLength(|bs| - |rest|, |bs|))
        else Ok(RegisterOwnershipData(height, txIndex, groups))
  }

  // ---------------------------------------------------------------------------
  // Decoding inverts encoding
  // ---------------------------------------------------------------------------

  lemma DecodeSingleSlot(slot: nat, rest: seq<byte>, total: nat)
    requires slot <= MAX_SLOT
    ensures DecodeItem([SINGLE_SLOT] + Encode(slot) + rest, total) == Ok((Span(slot, slot), rest))
  {
    AfterTag(SINGLE_SLOT, Encode(slot), rest);
    TakeOfEncode(slot, rest);
  }

  lemma DecodeSlotRange(start: nat, end: nat, rest: seq<byte>, total: nat)
    requires start < end <= MAX_SLOT
    ensures DecodeItem([SLOT_RANGE] + (Encode(start) + Encode(end)) + rest, total) == Ok((Span(start, end), rest))
  {
    AfterTag(SLOT_RANGE, Encode(start) + Encode(end), rest);
    Assoc(Encode(start), Encode(end), rest);
    TakeOfEncode(start, Encode(end) + rest);
    TakeOfEncode(end, rest);
  }

  lemma DecodeItemOfEncode(r: SlotRange, rest: seq<byte>, total: nat)
    requires WfSlots(r)
    ensures DecodeItem(EncodeItem(r) + rest, total) == Ok((r, rest))
  {
    if r.start == r.end {
      DecodeSingleSlot(r.start, rest, total);
    } else {
      DecodeSlotRange(r.start, r.end, rest, total);
    }
  }

  lemma DecodeFirstItem(
    bs: seq<byte>, item: SlotRange, tailBytes: seq<byte>, n: nat, total: nat, tail: OwnershipGroup, rest: seq<byte>)
    requires n > 0 && WfSlots(item) && bs == EncodeItem(item) + tailBytes
    requires DecodeItems(tailBytes, n - 1, total) == Ok((tail, rest))
    ensures DecodeItems(bs, n, total) == Ok(([item] + tail, rest))
  {
    DecodeItemOfEncode(item, tailBytes, total);
  }

  lemma UnconsItems(g: OwnershipGroup) returns (item: SlotRange, tail: OwnershipGroup)
    requires g != [] && WfGroup(g)
    ensures g == [item] + tail && |tail| + 1 == |g| && WfSlots(item) && WfGroup(tail)
    ensures EncodeItems(g) == EncodeItem(item) + EncodeItems(tail)
  {
    item, tail := g[0], g[1..];
  }

  lemma DecodeNoItems(rest: seq<byte>, total: nat)
    ensures DecodeItems(EncodeItems([]) + rest, 0, total) == Ok(([], rest))
  {
    assert EncodeItems([]) + rest == rest;
  }

  lemma {:induction false} DecodeItemsOfEncode(g: OwnershipGroup, rest: seq<byte>, total: nat)
    requires WfGroup(g)
    ensures DecodeItems(EncodeItems(g) + rest, |g|, total) == Ok((g, rest))
    decreases |g|
  {
    hide *;
    if g == [] {
      DecodeNoItems(rest, total);
    } else {
      var item, tail := UnconsItems(g);
      DecodeItemsOfEncode(tail, rest, total);
      Assoc(EncodeItem(item), EncodeItems(tail), rest);
      DecodeFirstItem(EncodeItems(g) + rest, item, EncodeItems(tail) + rest, |g|, total, tail, rest);
    }
  }

  lemma DecodeFirstGroup(
    bs: seq<byte>, g: OwnershipGroup, tailBytes: seq<byte>, n: nat, total: nat, tail: seq<OwnershipGroup>,
    rest: seq<byte>)
    requires n > 0 && WfGroup(g) && g != [] && |g| <= USIZE_MAX
    requires bs == Encode(|g|) + (EncodeItems(g) + tailBytes)
    requires DecodeGroups(tailBytes, n - 1, total) == Ok((tail, rest))
    ensures DecodeGroups(bs, n, total) == Ok(([g] + tail, rest))
  {
    TakeOfEncode(|g|, EncodeItems(g) + tailBytes);
    DecodeItemsOfEncode(g, tailBytes, total);
  }

  lemma {:induction false} DecodeGroupsOfEncode(gs: seq<OwnershipGroup>, rest: seq<byte>, total: nat)
    requires forall k | 0 <= k < |gs| :: gs[k] != [] && WfGroup(gs[k]) && |gs[k]| <= USIZE_MAX
    ensures DecodeGroups(EncodeGroups(gs) + rest, |gs|, total) == Ok((gs, rest))
    decreases |gs|
  {
    if gs == [] {
      assert EncodeGroups(gs) + rest == rest;
    } else {
      hide DecodeGroups, DecodeItems, EncodeItems, Encode;
      var g, tail := gs[0], gs[1..];
      DecodeGroupsOfEncode(tail, rest, total);
      Regroup(Encode(|g|), EncodeItems(g), EncodeGroups(tail), rest);
      DecodeFirstGroup(EncodeGroups(gs) + rest, g, EncodeGroups(tail) + rest, |gs|, total, tail, rest);
      assert [g] + tail == gs;
    }
  }

  /** Every valid ownership message decodes back from its bytes. */
  lemma DecodeOfEncodeOwnership(d: RegisterOwnershipData)
    requires Valid(d) && FitsTypes(d)
    ensures DecodeOwnership(EncodeOwnership(d)) == Ok(d)
  {
    var bs3 := EncodeGroups(d.groups);
    var bs2 := Encode(|d.groups|) + bs3;
    var bs1 := Encode(d.collectionTxIndex) + bs2;
    TakeOfEncode(d.collectionHeight, bs1);
    TakeOfEncode(d.collectionTxIndex, bs2);
    TakeOfEncode(|d.groups|, bs3);
    DecodeGroupsOfEncode(d.groups, [], |EncodeOwnership(d)|);
    assert bs3 + [] == bs3;
  }

  // ---------------------------------------------------------------------------
  // Encoding inverts decoding
  // ---------------------------------------------------------------------------

  lemma RebuildItem(tag: byte, a: seq<byte>, b: seq<byte>, bs: seq<byte>, bs1: seq<byte>, rest: seq<byte>)
    requires bs != [] && bs[0] == tag && bs[1..] == a + bs1 && bs1 == b + rest
    ensures bs == [tag] + (a + b) + rest
  {
    Assoc(a, b, rest);
    assert bs == [tag] + bs[1..];
  }

  lemma EncodeOfDecodeItem(bs: seq<byte>, total: nat)
    requires DecodeItem(bs, total).Ok?
    ensures bs == EncodeItem(DecodeItem(bs, total).value.0) + DecodeItem(bs, total).value.1
    ensures WfSlots(DecodeItem(bs, total).value.0)
  {
    EncodeOfTake(bs[1..]);
    var (first, bs1) := TakeVarint(bs[1..]).value;
    if bs[0] == SINGLE_SLOT {
      RebuildItem(SINGLE_SLOT, Encode(first), [], bs, bs1, bs1);
      assert Encode(first) + [] == Encode(first);
    } else {
      EncodeOfTake(bs1);
      var (second, rest) := TakeVarint(bs1).value;
      RebuildItem(SLOT_RANGE, Encode(first), Encode(second), bs, bs1, rest);
    }
  }

  predicate ReadsItems(bs: seq<byte>, n: nat, total: nat, g: OwnershipGroup, rest: seq<byte>) {
    && DecodeItems(bs, n, total).Ok?
    && DecodeItems(bs, n, total).value.0 == g && DecodeItems(bs, n, total).value.1 == rest
  }

  lemma FirstItem(bs: seq<byte>, n: nat, total: nat, g: OwnershipGroup, rest: seq<byte>)
    returns (item: SlotRange, bs1: seq<byte>, tail: OwnershipGroup)
    requires n > 0 && ReadsItems(bs, n, total, g, rest)
    ensures ReadsItems(bs1, n - 1, total, tail, rest)
    ensures g == [item] + tail && bs == EncodeItem(item) + bs1 && WfSlots(item)
  {
    EncodeOfDecodeItem(bs, total);
    item := DecodeItem(bs, total).value.0;
    bs1 := DecodeItem(bs, total).value.1;
    tail := DecodeItems(bs1, n - 1, total).value.0;
  }

  lemma PrependItem(
    bs: seq<byte>, bs1: seq<byte>, item: SlotRange, tail: OwnershipGroup, g: OwnershipGroup, rest: seq<byte>)
    requires g == [item] + tail && bs == EncodeItem(item) + bs1 && bs1 == EncodeItems(tail) + rest
    ensures bs == EncodeItems(g) + rest
  {
    assert g[1..] == tail;
    assert EncodeItem(item) + (EncodeItems(tail) + rest) == EncodeItem(item) + EncodeItems(tail) + rest;
  }

  lemma {:induction false} EncodeOfDecodeItems(
    bs: seq<byte>, n: nat, total: nat, g: OwnershipGroup, rest: seq<byte>)
    requires ReadsItems(bs, n, total, g, rest)
    ensures |g| == n && WfGroup(g) && bs == EncodeItems(g) + rest
    decreases n
  {
    if n > 0 {
      var item, bs1, tail := FirstItem(bs, n, total, g, rest);
      EncodeOfDecodeItems(bs1, n - 1, total, tail, rest);
      PrependItem(bs, bs1, item, tail, g, rest);
    }
  }

  predicate ReadsGroups(bs: seq<byte>, n: nat, total: nat, gs: seq<OwnershipGroup>, rest: seq<byte>) {
    && DecodeGroups(bs, n, total).Ok?
    && DecodeGroups(bs, n, total).value.0 == gs && DecodeGroups(bs, n, total).value.1 == rest
  }

  lemma FirstGroup(bs: seq<byte>, n: nat, total: nat, gs: seq<OwnershipGroup>, rest: seq<byte>)
    returns (g: OwnershipGroup, bs1: seq<byte>, bs2: seq<byte>, tail: seq<OwnershipGroup>)
    requires n > 0 && ReadsGroups(bs, n, total, gs, rest)
    ensures ReadsGroups(bs2, n - 1, total, tail, rest)
    ensures gs == [g] + tail && g != [] && WfGroup(g) && |g| <= USIZE_MAX
    ensures bs == Encode(|g|) + bs1 && bs1 == EncodeItems(g) + bs2
  {
    EncodeOfTake(bs);
    bs1 := TakeVarint(bs).value.1;
    g := DecodeGroup(bs, total).value.0;
    bs2 := DecodeGroup(bs, total).value.1;
    EncodeOfDecodeItems(bs1, TakeVarint(bs).value.0, total, g, bs2);
    tail := DecodeGroups(bs2, n - 1, total).value.0;
  }

  lemma PrependGroup(
    bs: seq<byte>, bs1: seq<byte>, bs2: seq<byte>, g: OwnershipGroup, tail: seq<OwnershipGroup>,
    gs: seq<OwnershipGroup>, rest: seq<byte>)
    requires gs == [g] + tail
    requires bs == Encode(|g|) + bs1 && bs1 == EncodeItems(g) + bs2 && bs2 == EncodeGroups(tail) + rest
    ensures bs == EncodeGroups(gs) + rest
  {
    assert gs[1..] == tail;
    Regroup(Encode(|g|), EncodeItems(g), EncodeGroups(tail), rest);
  }

  predicate AllGroups(gs: seq<OwnershipGroup>) {
    forall k | 0 <= k < |gs| :: gs[k] != [] && WfGroup(gs[k]) && |gs[k]| <= USIZE_MAX
  }

  lemma AllGroupsCons(g: OwnershipGroup, tail: seq<OwnershipGroup>)
    requires g != [] && WfGroup(g) && |g| <= USIZE_MAX && AllGroups(tail)
    ensures AllGroups([g] + tail)
  {
  }

  lemma NoGroups(bs: seq<byte>, total: nat, gs: seq<OwnershipGroup>, rest: seq<byte>)
    requires ReadsGroups(bs, 0, total, gs, rest)
    ensures gs == [] && bs == EncodeGroups(gs) + rest && AllGroups(gs)
  {
  }

  lemma {:induction false} EncodeOfDecodeGroups(
    bs: seq<byte>, n: nat, total: nat, gs: seq<OwnershipGroup>, rest: seq<byte>)
    requires ReadsGroups(bs, n, total, gs, rest)
    ensures |gs| == n && bs == EncodeGroups(gs) + rest
    ensures AllGroups(gs)
    decreases n
  {
    hide *;
    if n == 0 {
      NoGroups(bs, total, gs, rest);
    } else {
      var g, bs1, bs2, tail := FirstGroup(bs, n, total, gs, rest);
      EncodeOfDecodeGroups(bs2, n - 1, total, tail, rest);
      PrependGroup(bs, bs1, bs2, g, tail, gs, rest);
      AllGroupsCons(g, tail);
    }
  }

  /**
    Every byte string that decodes is the encoding of what it decodes to; and what it decodes to
    passes `validate`, although the decoder never calls it.
    */
  lemma EncodeOfDecodeOwnership(bs: seq<byte>)
    requires DecodeOwnership(bs).Ok?
    ensures EncodeOwnership(DecodeOwnership(bs).value) == bs
    ensures Valid(DecodeOwnership(bs).value) && FitsTypes(DecodeOwnership(bs).value)
  {
    EncodeOfTake(bs);
    var bs1 := TakeVarint(bs).value.1;
    EncodeOfTake(bs1);
    var bs2 := TakeVarint(bs1).value.1;
    EncodeOfTake(bs2);
    var (count, bs3) := TakeVarint(bs2).value;
    var gs := DecodeGroups(bs3, count, |bs|).value.0;
    EncodeOfDecodeGroups(bs3, count, |bs|, gs, []);
    assert EncodeGroups(gs) + [] == EncodeGroups(gs);
  }

  // ---------------------------------------------------------------------------
  // The encoding and decoding loops
  // ---------------------------------------------------------------------------

  method EncodeItemInto(r: SlotRange, out0: seq<byte>) returns (out: seq<byte>)
    ensures out == out0 + EncodeItem(r)
  {
    if r.start == r.end {
      out := out0 + [SINGLE_SLOT];
      out := EncodeInto(r.start, out);
    } else {
      out := out0 + [SLOT_RANGE];
      out := EncodeInto(r.start, out);
      out := EncodeInto(r.end, out);
      Reassoc(out0, [SLOT_RANGE], Encode(r.start), Encode(r.end));
      Assoc([SLOT_RANGE], Encode(r.start), Encode(r.end));
    }
  }

  lemma EncodeItemsStep(out: seq<byte>, g: OwnershipGroup, i: nat)
    requires i < |g|
    ensures out + EncodeItems(g[i..]) == out + EncodeItem(g[i]) + EncodeItems(g[i + 1..])
  {
    assert g[i..][0] == g[i] && g[i..][1..] == g[i + 1..];
  }

  method EncodeItemsInto(g: OwnershipGroup, out0: seq<byte>) returns (out: seq<byte>)
    ensures out == out0 + EncodeItems(g)
  {
    out := out0;
    for i := 0 to |g|
      invariant out + EncodeItems(g[i..]) == out0 + EncodeItems(g)
    {
      EncodeItemsStep(out, g, i);
      out := EncodeItemInto(g[i], out);
    }
  }

  lemma EncodeGroupsStep(out: seq<byte>, gs: seq<OwnershipGroup>, k: nat)
    requires k < |gs|
    ensures out + EncodeGroups(gs[k..])
         == out + Encode(|gs[k]|) + EncodeItems(gs[k]) + EncodeGroups(gs[k + 1..])
  {
    assert gs[k..][0] == gs[k] && gs[k..][1..] == gs[k + 1..];
    Reassoc(out, Encode(|gs[k]|), EncodeItems(gs[k]), EncodeGroups(gs[k + 1..]));
  }

  method EncodeGroupsInto(gs: seq<OwnershipGroup>, out0: seq<byte>) returns (out: seq<byte>)
    ensures out == out0 + EncodeGroups(gs)
  {
    out := out0;
    for k := 0 to |gs|
      invariant out + EncodeGroups(gs[k..]) == out0 + EncodeGroups(gs)
    {
      EncodeGroupsStep(out, gs, k);
      out := EncodeInto(|gs[k]|, out);
      out := EncodeItemsInto(gs[k], out);
    }
  }

  method ToBytes(d: RegisterOwnershipData) returns (out: seq<byte>)
    requires Valid(d)
    ensures out == EncodeOwnership(d)
  {
    out := EncodeInto(d.collectionHeight, []);
    out := EncodeInto(d.collectionTxIndex, out);
    out := EncodeInto(|d.groups|, out);
    out := EncodeGroupsInto(d.groups, out);
    OwnershipBytes(Encode(d.collectionHeight), Encode(d.collectionTxIndex), Encode(|d.groups|), EncodeGroups(d.groups));
  }

  lemma OwnershipBytes(a: seq<byte>, b: seq<byte>, c: seq<byte>, d: seq<byte>)
    ensures [] + a + b + c + d == a + (b + (c + d))
  {
  }

  method TakeItem(bytes: seq<byte>, cursor0: nat) returns (r: Result<(SlotRange, nat), Brc721Error>)
    requires cursor0 <= |bytes|
    ensures match DecodeItem(bytes[cursor0..], |bytes|)
            case Ok((item, rest)) => r.Ok? && r.value.0 == item && r.value.1 <= |bytes| && bytes[r.value.1..] == rest
            case Err(e) => r == Err(e)
  {
    if |bytes| < cursor0 + 1 {
      return Err(InvalidLength(cursor0 + 1, |bytes|));
    }
    var tag := bytes[cursor0];
    var cursor := cursor0 + 1;
    assert bytes[cursor0..][1..] == bytes[cursor..];
    if tag == SINGLE_SLOT {
      var slot := TakeVarintAt(bytes, cursor);
      if slot.Err? {
        return Err(slot.error);
      }
      return Ok((Span(slot.value.0, slot.value.0), slot.value.1));
    }
    if tag == SLOT_RANGE {
      var start := TakeVarintAt(bytes, cursor);
      if start.Err? {
        return Err(start.error);
      }
      var end := TakeVarintAt(bytes, start.value.1);
      if end.Err? {
        return Err(end.error);
      }
      if start.value.0 > end.value.0 {
        return Err(InvalidSlotRange(start.value.0, end.value.0));
      }
      if start.value.0 == end.value.0 {
        return Err(TxError);
      }
      return Ok((Span(start.value.0, end.value.0), end.value.1));
    }
    return Err(TxError);
  }

  lemma DecodeItemsStep(acc: OwnershipGroup, bs: seq<byte>, n: nat, total: nat)
    requires n > 0
    ensures match DecodeItem(bs, total)
            case Ok((item, bs1)) =>
              After(acc, DecodeItems(bs, n, total)) == After(acc + [item], DecodeItems(bs1, n - 1, total))
            case Err(e) => After(acc, DecodeItems(bs, n, total)) == Err(e)
  {
    if DecodeItem(bs, total).Ok? {
      var (item, bs1) := DecodeItem(bs, total).value;
      var r := DecodeItems(bs1, n - 1, total);
      if r.Ok? {
        AfterCons(acc, item, r);
      }
    }
  }

  method TakeItems(bytes: seq<byte>, cursor0: nat, count: nat)
    returns (r: Result<(OwnershipGroup, nat), Brc721Error>)
    requires cursor0 <= |bytes|
    ensures match DecodeItems(bytes[cursor0..], count, |bytes|)
            case Ok((g, rest)) => r.Ok? && r.value.0 == g && r.value.1 <= |bytes| && bytes[r.value.1..] == rest
            case Err(e) => r == Err(e)
  {
    var cursor: nat := cursor0;
    var ranges: OwnershipGroup := [];
    AfterNothing(DecodeItems(bytes[cursor..], count, |bytes|));
    for i := 0 to count
      invariant cursor <= |bytes|
      invariant DecodeItems(bytes[cursor0..], count, |bytes|)
             == After(ranges, DecodeItems(bytes[cursor..], count - i, |bytes|))
    {
      DecodeItemsStep(ranges, bytes[cursor..], count - i, |bytes|);
      var item := TakeItem(bytes, cursor);
      if item.Err? {
        return Err(item.error);
      }
      ranges := ranges + [item.value.0];
      cursor := item.value.1;
    }
    assert ranges + [] == ranges;
    return Ok((ranges, cursor));
  }

  method TakeGroup(bytes: seq<byte>, cursor: nat) returns (r: Result<(OwnershipGroup, nat), Brc721Error>)
    requires cursor <= |bytes|
    ensures match DecodeGroup(bytes[cursor..], |bytes|)
            case Ok((g, rest)) => r.Ok? && r.value.0 == g && r.value.1 <= |bytes| && bytes[r.value.1..] == rest
            case Err(e) => r == Err(e)
  {
    var c := TakeVarintAt(bytes, cursor);
    if c.Err? {
      return Err(c.error);
    }
    var itemCount := c.value.0;
    if itemCount > USIZE_MAX {
      return Err(TxError);
    }
    if itemCount == 0 {
      return Err(InvalidRangeCount(0));
    }
    r := TakeItems(bytes, c.value.1, itemCount);
  }

  lemma DecodeGroupsStep(acc: seq<OwnershipGroup>, bs: seq<byte>, n: nat, total: nat)
    requires n > 0
    ensures match DecodeGroup(bs, total)
            case Ok((g, bs1)) =>
              After(acc, DecodeGroups(bs, n, total)) == After(acc + [g], DecodeGroups(bs1, n - 1, total))
            case Err(e) => After(acc, DecodeGroups(bs, n, total)) == Err(e)
  {
    if DecodeGroup(bs, total).Ok? {
      var (g, bs1) := DecodeGroup(bs, total).value;
      var r := DecodeGroups(bs1, n - 1, total);
      if r.Ok? {
        AfterCons(acc, g, r);
      }
    }
  }

  method TakeGroups(bytes: seq<byte>, cursor0: nat, count: nat)
    returns (r: Result<(seq<OwnershipGroup>, nat), Brc721Error>)
    requires cursor0 <= |bytes|
    ensures match DecodeGroups(bytes[cursor0..], count, |bytes|)
            case Ok((gs, rest)) => r.Ok? && r.value.0 == gs && r.value.1 <= |bytes| && bytes[r.value.1..] == rest
            case Err(e) => r == Err(e)
  {
    var cursor: nat := cursor0;
    var groups: seq<OwnershipGroup> := [];
    AfterNothing(DecodeGroups(bytes[cursor0..], count, |bytes|));
    for i := 0 to count
      invariant cursor <= |bytes|
      invariant DecodeGroups(bytes[cursor0..], count, |bytes|)
             == After(groups, DecodeGroups(bytes[cursor..], count - i, |bytes|))
    {
      DecodeGroupsStep(groups, bytes[cursor..], count - i, |bytes|);
      var group := TakeGroup(bytes, cursor);
      if group.Err? {
        return Err(group.error);
      }
      groups := groups + [group.value.0];
      cursor := group.value.1;
    }
    assert groups + [] == groups;
    return Ok((groups, cursor));
  }

  method TakeBody(bytes: seq<byte>, cursor: nat) returns (r: Result<(seq<OwnershipGroup>, nat), Brc721Error>)
    requires cursor <= |bytes|
    ensures match DecodeBody(bytes[cursor..], |bytes|)
            case Ok((gs, rest)) => r.Ok? && r.value.0 == gs && r.value.1 <= |bytes| && bytes[r.value.1..] == rest
            case Err(e) => r == Err(e)
  {
    var count := TakeVarintAt(bytes, cursor);
    if count.Err? {
      return Err(count.error);
    }
    if count.value.0 > USIZE_MAX {
      return Err(TxError);
    }
    if count.value.0 == 0 {
      return Err(InvalidGroupCount(0));
    }
    r := TakeGroups(bytes, count.value.1, count.value.0);
  }

  method TryFrom(bytes: seq<byte>) returns (r: Result<RegisterOwnershipData, Brc721Error>)
    ensures r == DecodeOwnership(bytes)
  {
    assert bytes[0..] == bytes;
    var height := TakeVarintAt(bytes, 0);
    if height.Err? {
      return Err(height.error);
    }
    if height.value.0 > U64_MAX {
      return Err(TxError);
    }
    var txIndex := TakeVarintAt(bytes, height.value.1);
    if txIndex.Err? {
      return Err(txIndex.error);
    }
    if txIndex.value.0 > U32_MAX {
      return Err(TxError);
    }
    var groups := TakeBody(bytes, txIndex.value.1);
    if groups.Err? {
      return Err(groups.error);
    }
    if groups.value.1 != |bytes| {
      return Err(InvalidLength(groups.value.1, |bytes|));
    }
    return Ok(RegisterOwnershipData(height.value.0, txIndex.value.0, groups.value.0));
  }
}
