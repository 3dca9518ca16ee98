/** The byte form of the messages, byte by byte: what other programs that read the chain must agree on. */
module WireFormat {
  import opened Prelude
  import opened Spans
  import opened VarInt96
  import opened Payload
  import Mix = MixPayload
  import Ownership = OwnershipPayload

  // ---------------------------------------------------------------------------
  // Varints
  // ---------------------------------------------------------------------------

  lemma Multiple(k: nat, d: nat)
    requires k >= 1
    ensures k * d >= d
  {
    assert k * d == (k - 1) * d + d;
  }

  lemma Distributes(a: int, b: int, d: int)
    ensures (a - b) * d == a * d - b * d
  {
  }

  lemma OneQuotient(d: nat, q: nat, r: nat, e: nat, s: nat)
    requires r < d && s < d && q * d + r == e * d + s
    ensures q == e
  {
    Distributes(e, q, d);
    Distributes(q, e, d);
    if q < e {
      Multiple(e - q, d);
    } else if e < q {
      Multiple(q - e, d);
    }
  }

  lemma Regroup(a: nat, b: nat, p: nat, r: nat)
    requires b < p && r < 128
    ensures 128 * (a * p + b) + r == a * (128 * p) + (128 * b + r)
    ensures 128 * b + r < 128 * p
  {
  }

  lemma Nested(q: nat, c: nat, p: nat, a: nat, b: nat, e: nat, s: nat)
    requires c < 128 && q == a * p + b && b < p
    requires 128 * q + c == e * (128 * p) + s && s < 128 * p
    ensures a == e
  {
    Regroup(a, b, p, c);
    OneQuotient(128 * p, a, 128 * b + c, e, s);
  }

  lemma DivMod(value: nat, d: nat) returns (q: nat, r: nat)
    requires d > 0
    ensures q == value / d && r < d && value == q * d + r
  {
    q, r := value / d, value % d;
  }

  lemma DividesTwice(value: nat, n: nat)
    ensures (value / 128) / Pow128(n) == value / Pow128(n + 1)
  {
    var p := Pow128(n);
    var q, c := DivMod(value, 128);
    var a, b := DivMod(q, p);
    var e, s := DivMod(value, Pow128(n + 1));
    Nested(q, c, p, a, b, e, s);
  }

  /** Byte `i` holds the i-th group of seven bits, lowest first, and a mark on all bytes but the last. */
  lemma {:induction false} VarintByte(value: nat, i: nat)
    requires i < |Encode(value)|
    ensures Encode(value)[i]
         == (value / Pow128(i)) % 128 + if i + 1 < |Encode(value)| then 128 else 0
    decreases i
  {
    if i > 0 {
      VarintByte(value / 128, i - 1);
      DividesTwice(value, i - 1);
    }
  }

  lemma Varint2(value: nat)
    requires 128 <= value < 16384
    ensures Encode(value) == [value % 128 + 128, value / 128]
  {
  }

  lemma Varint3(value: nat)
    requires 16384 <= value < 2097152
    ensures Encode(value) == [value % 128 + 128, value / 128 % 128 + 128, value / 16384]
  {
    Varint2(value / 128);
  }

  /** Refused byte strings: a longer form than needed, no byte at all, and no last byte. */
  lemma RefusedVarints(long: seq<byte>, open: seq<byte>)
    requires long == [128, 0] && open == [128]
    ensures Decode(long) == Err(NonMinimal) && Decode(open) == Err(Unterminated) && Decode([]) == Err(EmptyInput)
  {
    assert DecodeGroups(long[1..], 1) == Err(NonMinimal);
    assert DecodeGroups(long, 0) == Err(NonMinimal);
    assert DecodeGroups(open[1..], 1) == Err(Unterminated);
    assert DecodeGroups(open, 0) == Err(Unterminated);
  }

  // ---------------------------------------------------------------------------
  // Messages
  // ---------------------------------------------------------------------------

  /** The complaint about a message whose command or whose collection body is wrong. */
  lemma RefusedMessages(bs: seq<byte>)
    ensures bs == [] ==> DecodePayload(bs) == Err(ScriptTooShort)
    ensures bs != [] && bs[0] > 2 ==> DecodePayload(bs) == Err(UnknownCommand(bs[0]))
    ensures bs != [] && bs[0] == 0 && |bs| != 22 ==> DecodePayload(bs) == Err(InvalidLength(21, |bs| - 1))
    ensures |bs| == 22 && bs[0] == 0 && bs[21] > 1 ==> DecodePayload(bs) == Err(InvalidRebaseFlag(bs[21]))
  {
    if bs != [] && bs[0] == 0 {
      assert |bs[1..]| == |bs| - 1;
      assert DecodeCollection(bs[1..]).Err? ==> DecodePayload(bs) == Err(DecodeCollection(bs[1..]).error);
    }
  }

  lemma CollectionBytes(address: H160)
    ensures EncodePayload(RegisterCollection(RegisterCollectionData(address, true))) == [0] + address + [1]
    ensures EncodePayload(RegisterCollection(RegisterCollectionData(address, false))) == [0] + address + [0]
  {
  }

  lemma ItemsOfTwo(a: Span, b: Span)
    ensures Ownership.EncodeItems([a, b]) == Ownership.EncodeItem(a) + Ownership.EncodeItem(b)
  {
    var g, tail := [a, b], [b];
    assert g[1..] == tail;
    assert Ownership.EncodeItems(tail[1..]) == [];
    assert Ownership.EncodeItems(tail) == Ownership.EncodeItem(b) + [];
    assert Ownership.EncodeItems(g) == Ownership.EncodeItem(a) + Ownership.EncodeItems(tail);
  }

  /**
    A registration for collection (840000, 2) that gives slot 10 and slots 20 to 30 to output 1: height,
    index, the number of groups, and for the group its number of items, one slot tagged 0, one range tagged 1.
    */
  lemma RegistrationBytes()
    ensures EncodePayload(RegisterOwnership(
              Ownership.RegisterOwnershipData(840000, 2, [[Span(10, 10), Span(20, 30)]])))
         == [0x01, 0xC0, 0xA2, 0x33, 0x02, 0x01, 0x02, 0x00, 0x0A, 0x01, 0x14, 0x1E]
  {
    Varint3(840000);
    var g := [Span(10, 10), Span(20, 30)];
    ItemsOfTwo(g[0], g[1]);
    assert Ownership.EncodeItem(g[0]) == [0x00, 0x0A] && Ownership.EncodeItem(g[1]) == [0x01, 0x14, 0x1E];
    var none: seq<Ownership.OwnershipGroup> := [];
    assert [g][1..] == none;
    assert Ownership.EncodeGroups([g]) == Encode(2) + [0x00, 0x0A, 0x01, 0x14, 0x1E];
  }

  /** A mix: the number of outputs, and for each the number of its ranges and their bounds; the complement has none. */
  lemma MixBytes()
    ensures EncodePayload(Brc721Payload.Mix(Mix.MixData([[Span(0, 2)], [], [Span(2, 4)]], 1)))
         == [0x02, 0x03, 0x01, 0x00, 0x02, 0x00, 0x01, 0x02, 0x04]
  {
    var a, b := [Span(0, 2)], [Span(2, 4)];
    assert a[1..] == [] && b[1..] == [];
    assert Mix.EncodeRanges(a) == [0x00, 0x02] && Mix.EncodeRanges(b) == [0x02, 0x04];
    var none: seq<Mix.IndexRange> := [];
    var last: seq<seq<Mix.IndexRange>> := [b];
    assert [a, none, b][1..] == [none, b] && [none, b][1..] == last && last[1..] == [];
    assert Mix.EncodeOutputs(last) == [0x01, 0x02, 0x04];
    assert Mix.EncodeOutputs([none, b]) == [0x00, 0x01, 0x02, 0x04];
  }

  // ---------------------------------------------------------------------------
  // Which messages exist
  // ---------------------------------------------------------------------------

  /** The registrations that can be sent: something in every group, ranges in order, and every field in its width. */
  lemma RegistrationIff(d: Ownership.RegisterOwnershipData)
    ensures ValidPayload(RegisterOwnership(d))
      <==> && d.collectionHeight < 0x1_0000_0000_0000_0000 && d.collectionTxIndex < 0x1_0000_0000
           && 0 < |d.groups| < 0x1_0000_0000_0000_0000
           && (forall k | 0 <= k < |d.groups| :: 0 < |d.groups[k]| < 0x1_0000_0000_0000_0000)
           && (forall k, i | 0 <= k < |d.groups| && 0 <= i < |d.groups[k]| ::
                 d.groups[k][i].start <= d.groups[k][i].end < 0x1_0000_0000_0000_0000_0000_0000)
  {
    if ValidPayload(RegisterOwnership(d)) {
      forall k, i | 0 <= k < |d.groups| && 0 <= i < |d.groups[k]|
        ensures d.groups[k][i].start <= d.groups[k][i].end < 0x1_0000_0000_0000_0000_0000_0000
      {
        assert Ownership.WfSlots(d.groups[k][i]);
      }
    }
  }
}
