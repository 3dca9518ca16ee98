/**
  The minimal variable-length integer of every payload: unsigned LEB128 (section 7.6 of DWARF 5),
  restricted to the shortest encoding and to 96 bits.
  */
module VarInt96 {
  import opened Prelude

  const MAX_VALUE: nat := TWO_96 - 1
  const MAX_LEN: nat := 14

  datatype VarIntError = EmptyInput | Unterminated | TooLong | NonMinimal | Overflow(value: nat)

  // ---------------------------------------------------------------------------
  // What an encoding is
  // ---------------------------------------------------------------------------

  function Encode(value: nat): (bs: seq<byte>)
    ensures bs != []
  {
    if value < 128 then [value] else [value % 128 + 128] + Encode(value / 128)
  }

  /** Reads the group of seven bits at position `index` and everything above it. */
  function DecodeGroups(bs: seq<byte>, index: nat): Result<(nat, nat), VarIntError>
    decreases |bs|
  {
    if index >= MAX_LEN then Err(TooLong)
    else if bs == [] then Err(Unterminated)
    else if bs[0] < 128 then
      if index > 0 && bs[0] == 0 then Err(NonMinimal) else Ok((bs[0], 1))
    else
      var (high, used) :- DecodeGroups(bs[1..], index + 1);
      Ok((bs[0] - 128 + 128 * high, used + 1))
  }

  /** The value at the start of `bs` and the number of bytes it takes. */
  function Decode(bs: seq<byte>): Result<(nat, nat), VarIntError>
  {
    if bs == [] then Err(EmptyInput)
    else
      var (value, used) :- DecodeGroups(bs, 0);
      if value > MAX_VALUE then Err(Overflow(value)) else Ok((value, used))
  }

  function Pow128(n: nat): (p: nat)
    ensures p > 0
  {
    if n == 0 then 1 else 128 * Pow128(n - 1)
  }

  // ---------------------------------------------------------------------------
  // Canonical and self-delimiting
  // ---------------------------------------------------------------------------

  lemma {:induction false} EncodeLength(value: nat, n: nat)
    requires n > 0
    ensures value < Pow128(n) <==> |Encode(value)| <= n
    decreases n
  {
    if n == 1 {
      assert Pow128(1) == 128 * Pow128(0) == 128;
    } else if value >= 128 {
      EncodeLength(value / 128, n - 1);
      assert value < 128 * Pow128(n - 1) <==> value / 128 < Pow128(n - 1);
    } else {
      assert Pow128(n) == 128 * Pow128(n - 1);
    }
  }

  lemma Pow128Values()
    ensures Pow128(13) < TWO_96 < Pow128(14)
  {
    assert Pow128(1) == 128;
    assert Pow128(2) == 128 * 128;
    assert Pow128(4) == 128 * (128 * Pow128(2));
    assert Pow128(6) == 128 * (128 * Pow128(4));
    assert Pow128(8) == 128 * (128 * Pow128(6));
    assert Pow128(10) == 128 * (128 * Pow128(8));
    assert Pow128(12) == 128 * (128 * Pow128(10));
    assert Pow128(13) == 128 * Pow128(12);
    assert Pow128(14) == 128 * Pow128(13);
  }

  lemma EncodeFits(value: nat)
    requires value <= MAX_VALUE
    ensures |Encode(value)| <= MAX_LEN
  {
    Pow128Values();
    EncodeLength(value, 14);
  }

  lemma {:induction false} DecodeGroupsOfEncode(value: nat, rest: seq<byte>, index: nat)
    requires index + |Encode(value)| <= MAX_LEN
    requires index > 0 ==> value > 0
    ensures DecodeGroups(Encode(value) + rest, index) == Ok((value, |Encode(value)|))
    decreases value
  {
    var bs := Encode(value) + rest;
    if value >= 128 {
      DecodeGroupsOfEncode(value / 128, rest, index + 1);
      assert bs[1..] == Encode(value / 128) + rest;
    }
  }

  /** Every 96-bit value decodes from its encoding, whatever bytes follow. */
  lemma DecodeOfEncode(value: nat, rest: seq<byte>)
    requires value <= MAX_VALUE
    ensures Decode(Encode(value) + rest) == Ok((value, |Encode(value)|))
    ensures |Encode(value)| <= MAX_LEN
  {
    EncodeFits(value);
    DecodeGroupsOfEncode(value, rest, 0);
  }

  lemma {:induction false} EncodeOfDecodeGroups(bs: seq<byte>, index: nat)
    requires DecodeGroups(bs, index).Ok?
    ensures var (value, used) := DecodeGroups(bs, index).value;
            && 0 < used <= |bs| && index + used <= MAX_LEN
            && bs[..used] == Encode(value)
            && (index > 0 ==> value > 0)
    decreases |bs|
  {
    if bs[0] >= 128 {
      EncodeOfDecodeGroups(bs[1..], index + 1);
      var (high, used) := DecodeGroups(bs[1..], index + 1).value;
      var value := bs[0] - 128 + 128 * high;
      assert value % 128 + 128 == bs[0] && value / 128 == high;
      assert bs[..used + 1] == [bs[0]] + bs[1..][..used];
    }
  }

  /** Every accepted prefix is the encoding of its value: no value has a second spelling. */
  lemma EncodeOfDecode(bs: seq<byte>)
    requires Decode(bs).Ok?
    ensures var (value, used) := Decode(bs).value;
            && value <= MAX_VALUE && 0 < used <= |bs| && used <= MAX_LEN
            && bs[..used] == Encode(value)
            && bs == Encode(value) + bs[used..]
  {
    EncodeOfDecodeGroups(bs, 0);
  }

  /** The decoder accepts exactly the byte strings that start with the encoding of a 96-bit value. */
  lemma DecodeAccepts(bs: seq<byte>)
    ensures Decode(bs).Ok? <==> exists value: nat :: value <= MAX_VALUE && Encode(value) <= bs
  {
    if Decode(bs).Ok? {
      EncodeOfDecode(bs);
      assert Encode(Decode(bs).value.0) <= bs;
    }
    if value: nat :| value <= MAX_VALUE && Encode(value) <= bs {
      var used := |Encode(value)|;
      DecodeOfEncode(value, bs[used..]);
      assert bs == Encode(value) + bs[used..];
    }
  }

  // ---------------------------------------------------------------------------
  // The loops
  // ---------------------------------------------------------------------------

  method Size(value0: nat) returns (len: nat)
    ensures len == |Encode(value0)|
  {
    var value := value0;
    len := 1;
    while value >= 128
      invariant len + |Encode(value)| == 1 + |Encode(value0)|
    {
      value := value / 128;
      len := len + 1;
    }
  }

  method EncodeInto(value0: nat, out0: seq<byte>) returns (out: seq<byte>)
    ensures out == out0 + Encode(value0)
  {
    var value := value0;
    out := out0;
    while true
      invariant out + Encode(value) == out0 + Encode(value0)
      decreases value
    {
      var low := value % 128;
      value := value / 128;
      if value == 0 {
        out := out + [low];
        return;
      }
      out := out + [low + 128];
    }
  }

  /** Combines the groups read so far, worth `low` below weight `scale`, with a decoded tail. */
  function Above(low: nat, scale: nat, index: nat, tail: Result<(nat, nat), VarIntError>)
    : Result<(nat, nat), VarIntError>
  {
    var (high, used) :- tail;
    Ok((low + scale * high, index + used))
  }

  lemma AboveStep(low: nat, scale: nat, index: nat, bs: seq<byte>)
    requires index < MAX_LEN && bs != []
    ensures var data := bs[0] % 128;
            && low + data * scale >= 0
            && (bs[0] >= 128 ==>
                  Above(low, scale, index, DecodeGroups(bs, index))
                  == Above(low + data * scale, scale * 128, index + 1, DecodeGroups(bs[1..], index + 1)))
            && (bs[0] < 128 && !(index > 0 && bs[0] == 0) ==>
                  Above(low, scale, index, DecodeGroups(bs, index)) == Ok((low + data * scale, index + 1)))
  {
    var data: nat := bs[0] % 128;
    Product(data, scale);
    if bs[0] >= 128 {
      var tail := DecodeGroups(bs[1..], index + 1);
      if tail.Ok? {
        Scaled(scale, data, tail.value.0);
      }
    } else {
      Scaled(scale, data, 0);
    }
  }

  lemma Product(a: nat, b: nat)
    ensures a * b >= 0
  {
  }

  lemma Scaled(scale: nat, data: nat, high: nat)
    ensures scale * (data + 128 * high) == data * scale + scale * 128 * high
  {
  }

  method DecodeBytes(bs: seq<byte>) returns (r: Result<(nat, nat), VarIntError>)
    ensures r == Decode(bs)
  {
    if |bs| == 0 {
      return Err(EmptyInput);
    }
    var value: nat, scale: nat := 0, 1;
    for index := 0 to MAX_LEN
      invariant index <= |bs|
      invariant DecodeGroups(bs, 0) == Above(value, scale, index, DecodeGroups(bs[index..], index))
    {
      if index >= |bs| {
        return Err(Unterminated);
      }
      ghost var tail := bs[index..];
      assert tail[0] == bs[index] && tail[1..] == bs[index + 1..];
      AboveStep(value, scale, index, tail);
      var data := bs[index] % 128;
      value := value + data * scale;
      if bs[index] < 128 {
        var consumed := index + 1;
        if consumed > 1 && data == 0 {
          return Err(NonMinimal);
        }
        if value > MAX_VALUE {
          return Err(Overflow(value));
        }
        return Ok((value, consumed));
      }
      scale := scale * 128;
    }
    return Err(TooLong);
  }

  // ---------------------------------------------------------------------------
  // Reading one value off a payload
  // ---------------------------------------------------------------------------

  /** The value at the front of `bs` and the bytes after it. */
  function TakeVarint(bs: seq<byte>): (r: Result<(nat, seq<byte>), Brc721Error>)
    ensures r.Ok? ==> |r.value.1| < |bs| && r.value.0 <= MAX_VALUE
  {
    match Decode(bs)
    case Ok((value, used)) =>
      EncodeOfDecode(bs);
      Ok((value, bs[used..]))
    case Err(_) => Err(TxError)
  }

  lemma TakeOfEncode(value: nat, rest: seq<byte>)
    requires value <= MAX_VALUE
    ensures TakeVarint(Encode(value) + rest) == Ok((value, rest))
  {
    DecodeOfEncode(value, rest);
  }

  lemma EncodeOfTake(bs: seq<byte>)
    requires TakeVarint(bs).Ok?
    ensures bs == Encode(TakeVarint(bs).value.0) + TakeVarint(bs).value.1
  {
    EncodeOfDecode(bs);
  }

  /** The same, for a reader that keeps a cursor into the whole payload. */
  method TakeVarintAt(bytes: seq<byte>, cursor0: nat) returns (r: Result<(nat, nat), Brc721Error>)
    ensures cursor0 > |bytes| ==> r == Err(TxError)
    ensures cursor0 <= |bytes| ==>
      match TakeVarint(bytes[cursor0..])
      case Ok((value, rest)) =>
        r.Ok? && r.value.0 == value && cursor0 < r.value.1 <= |bytes| && bytes[r.value.1..] == rest
      case Err(e) => r == Err(e)
  {
    if cursor0 > |bytes| {
      return Err(TxError);
    }
    var d := DecodeBytes(bytes[cursor0..]);
    if d.Err? {
      return Err(TxError);
    }
    var (value, used) := d.value;
    EncodeOfDecode(bytes[cursor0..]);
    assert bytes[cursor0..][used..] == bytes[cursor0 + used..];
    return Ok((value, cursor0 + used));
  }
}
