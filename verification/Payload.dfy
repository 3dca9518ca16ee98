/** The message carried by the OP_RETURN output: a command byte, then one of three bodies. */
module Payload {
  import opened Prelude
  import Mix = MixPayload
  import Ownership = OwnershipPayload

  datatype RegisterCollectionData = RegisterCollectionData(evmCollectionAddress: H160, rebaseable: bool)

  datatype Brc721Payload =
    | RegisterCollection(collection: RegisterCollectionData)
    | RegisterOwnership(ownership: Ownership.RegisterOwnershipData)
    | Mix(mix: Mix.MixData)

  const ADDR_LEN := 20
  const LEN := 21

  function EncodeCollection(d: RegisterCollectionData): seq<byte> {
    d.evmCollectionAddress + [if d.rebaseable then 1 else 0]
  }

  function DecodeCollection(bs: seq<byte>): Result<RegisterCollectionData, Brc721Error> {
    if |bs| != LEN then Err(InvalidLength(LEN, |bs|))
    else if bs[ADDR_LEN] == 0 then Ok(RegisterCollectionData(bs[..ADDR_LEN], false))
    else if bs[ADDR_LEN] == 1 then Ok(RegisterCollectionData(bs[..ADDR_LEN], true))
    else Err(InvalidRebaseFlag(bs[ADDR_LEN]))
  }

  /** Payloads that exist as Rust values and that their constructors accept. */
  ghost predicate ValidPayload(p: Brc721Payload) {
    match p
    case RegisterCollection(_) => true
    case RegisterOwnership(d) => Ownership.Valid(d) && Ownership.FitsTypes(d)
    case Mix(d) => Mix.ValidBasic(d) && Mix.FitsMemory(d)
  }

  function Command(p: Brc721Payload): byte {
    match p
    case RegisterCollection(_) => 0
    case RegisterOwnership(_) => 1
    case Mix(_) => 2
  }

  function Body(p: Brc721Payload): seq<byte> {
    match p
    case RegisterCollection(d) => EncodeCollection(d)
    case RegisterOwnership(d) => Ownership.EncodeOwnership(d)
    case Mix(d) => Mix.EncodeMix(d)
  }

  function EncodePayload(p: Brc721Payload): seq<byte> {
    [Command(p)] + Body(p)
  }

  ghost function DecodePayload(bs: seq<byte>): Result<Brc721Payload, Brc721Error> {
    if bs == [] then Err(ScriptTooShort)
    else
      var body := bs[1..];
      if bs[0] == 0 then
        var d :- DecodeCollection(body);
        Ok(RegisterCollection(d))
      else if bs[0] == 1 then
        var d :- Ownership.DecodeOwnership(body);
        Ok(RegisterOwnership(d))
      else if bs[0] == 2 then
        var d :- Mix.DecodeMix(body);
        Ok(Brc721Payload.Mix(d))
      else Err(UnknownCommand(bs[0]))
  }

  /** Every valid payload decodes back from its bytes. */
  lemma DecodeOfEncode(p: Brc721Payload)
    requires ValidPayload(p)
    ensures DecodePayload(EncodePayload(p)) == Ok(p)
  {
    assert EncodePayload(p)[1..] == Body(p);
    match p
    case RegisterCollection(d) =>
      assert Body(p)[..ADDR_LEN] == d.evmCollectionAddress;
    case RegisterOwnership(d) => Ownership.DecodeOfEncodeOwnership(d);
    case Mix(d) => Mix.DecodeOfEncodeMix(d);
  }

  lemma EncodeOfDecodeCollection(bs: seq<byte>)
    requires DecodeCollection(bs).Ok?
    ensures EncodeCollection(DecodeCollection(bs).value) == bs
  {
    assert bs == bs[..ADDR_LEN] + [bs[ADDR_LEN]];
  }

  /** Every byte string that decodes is the only encoding of a valid payload. */
  lemma EncodeOfDecode(bs: seq<byte>)
    requires DecodePayload(bs).Ok?
    ensures EncodePayload(DecodePayload(bs).value) == bs
    ensures ValidPayload(DecodePayload(bs).value)
  {
    var body := bs[1..];
    assert bs == [bs[0]] + body;
    if bs[0] == 0 {
      EncodeOfDecodeCollection(body);
    } else if bs[0] == 1 {
      Ownership.EncodeOfDecodeOwnership(body);
    } else {
      Mix.EncodeOfDecodeMix(body);
    }
  }

  /** The accepted byte strings and the valid payloads are in one-to-one correspondence. */
  lemma PayloadBijection(bs: seq<byte>, p: Brc721Payload)
    ensures DecodePayload(bs) == Ok(p) <==> ValidPayload(p) && EncodePayload(p) == bs
  {
    if ValidPayload(p) {
      DecodeOfEncode(p);
    }
    if DecodePayload(bs).Ok? {
      EncodeOfDecode(bs);
    }
  }

  method ToBytes(p: Brc721Payload) returns (out: seq<byte>)
    requires ValidPayload(p)
    ensures out == EncodePayload(p)
  {
    var body: seq<byte>;
    match p {
      case RegisterCollection(d) => body := d.evmCollectionAddress + [if d.rebaseable then 1 else 0];
      case RegisterOwnership(d) => body := Ownership.ToBytes(d);
      case Mix(d) => body := Mix.ToBytes(d);
    }
    out := [Command(p)] + body;
  }

  method TryFrom(bytes: seq<byte>) returns (r: Result<Brc721Payload, Brc721Error>)
    ensures r == DecodePayload(bytes)
  {
    if |bytes| == 0 {
      return Err(ScriptTooShort);
    }
    var first, rest := bytes[0], bytes[1..];
    if first == 0 {
      var d := DecodeCollection(rest);
      return if d.Ok? then Ok(RegisterCollection(d.value)) else Err(d.error);
    } else if first == 1 {
      var d := Ownership.TryFrom(rest);
      return if d.Ok? then Ok(RegisterOwnership(d.value)) else Err(d.error);
    } else if first == 2 {
      var d := Mix.TryFrom(rest);
      return if d.Ok? then Ok(Brc721Payload.Mix(d.value)) else Err(d.error);
    } else {
      return Err(UnknownCommand(first));
    }
  }
}
