/** Bitcoin transactions as far as the indexer looks at them, and the node it asks. */
module Transactions {
  import opened Prelude
  import opened Tokens
  import opened Storage
  import opened Payload

  /**
    An output script. `payload` is what follows OP_RETURN and the BRC-721 marker opcode, when the
    script has that shape.
    */
  datatype Script =
    | Spendable(bytes: seq<byte>)
    | OpReturn(bytes: seq<byte>, payload: Option<seq<byte>>)

  datatype Tx = Tx(txid: Txid, inputs: seq<OutPoint>, outputs: seq<Script>)

  /** The previous output of a coinbase input. */
  const NULL_OUTPOINT := OutPoint(0, U32_MAX)

  /** Output indices are `u32`. */
  predicate WfTx(tx: Tx) {
    |tx.outputs| <= U32_MAX + 1
  }

  /** The script hash, and the transactions `getrawtransaction` can find. */
  datatype Node = Node(hash160: seq<byte> -> H160, raw: map<Txid, seq<Script>>)

  /** An unspent token outpoint among the inputs, with its ranges. */
  datatype TokenInput = TokenInput(outpoint: OutPoint, ranges: seq<Slice>)

  /** All input ranges in input order: what mix indices count over. */
  function AllRanges(inputs: seq<TokenInput>): seq<Slice> {
    if inputs == [] then [] else AllRanges(inputs[..|inputs| - 1]) + inputs[|inputs| - 1].ranges
  }

  /**
    What output 0 says: nothing when it does not have the shape of a message, an error when it has but
    does not decode.
    */
  ghost function ReadMessage(tx: Tx): Result<Option<Brc721Payload>, Brc721Error> {
    if tx.outputs == [] || tx.outputs[0].Spendable? || tx.outputs[0].payload.None? then Ok(None)
    else
      var p :- DecodePayload(tx.outputs[0].payload.value);
      Ok(Some(p))
  }

  /** The message the indexer acts on: one that does not decode is ignored. */
  ghost function TxPayload(tx: Tx): Option<Brc721Payload> {
    match ReadMessage(tx)
    case Ok(p) => p
    case Err(_) => None
  }

  /** A transaction carries a message exactly when output 0 is an OP_RETURN that holds its encoding. */
  lemma CarriesIff(tx: Tx, p: Brc721Payload)
    ensures TxPayload(tx) == Some(p)
      <==> && tx.outputs != [] && tx.outputs[0].OpReturn?
           && tx.outputs[0].payload == Some(EncodePayload(p)) && ValidPayload(p)
  {
    if tx.outputs != [] && tx.outputs[0].OpReturn? && tx.outputs[0].payload.Some? {
      PayloadBijection(tx.outputs[0].payload.value, p);
    }
  }

  method ParseBrc721Tx(tx: Tx) returns (r: Result<Option<Brc721Payload>, Brc721Error>)
    ensures r == ReadMessage(tx)
  {
    if |tx.outputs| == 0 {
      return Ok(None);
    }
    match tx.outputs[0] {
      case Spendable(_) => return Ok(None);
      case OpReturn(_, payload) =>
        if payload.None? {
          return Ok(None);
        }
        var p := Payload.TryFrom(payload.value);
        if p.Err? {
          return Err(p.error);
        }
        return Ok(Some(p.value));
    }
  }
}
