/**
  One transaction, and one block, through the indexer.

  `PlanTx` says what a transaction does as a value: the collection it registers and the ranges it
  gives to its outputs, in the order they are written. `StepTx` carries the plan out on the tables.
  `ParseTx` is the code: it reads the inputs, marks them spent, dispatches on the message and writes
  row after row into the open transaction.
  */
module Parser {
  import opened Prelude
  import opened Tokens
  import opened Storage
  import opened TableInvariant
  import opened Transactions
  import opened Writes
  import opened Payload
  import MixDigest
  import RegisterDigest

  // ---------------------------------------------------------------------------
  // Inputs
  // ---------------------------------------------------------------------------

  predicate HoldsTokens(t: Tables, op: OutPoint) {
    op != NULL_OUTPOINT && UnspentRanges(t, op) != []
  }

  predicate IsPlain(t: Tables, op: OutPoint) {
    op != NULL_OUTPOINT && UnspentRanges(t, op) == []
  }

  /** The inputs that spend tokens, in order, with their ranges. */
  function TokenInputs(t: Tables, ins: seq<OutPoint>): seq<TokenInput> {
    if ins == [] then []
    else
      var n := |ins| - 1;
      TokenInputs(t, ins[..n])
      + if HoldsTokens(t, ins[n]) then [TokenInput(ins[n], UnspentRanges(t, ins[n]))] else []
  }

  /** No token input comes after a plain one. */
  predicate TokensFirst(t: Tables, ins: seq<OutPoint>) {
    forall i, j | 0 <= i < j < |ins| :: IsPlain(t, ins[i]) ==> !HoldsTokens(t, ins[j])
  }

  function MarkInputs(utxos: map<UtxoKey, UtxoRow>, ins: seq<OutPoint>, spend: Spend): map<UtxoKey, UtxoRow> {
    if ins == [] then utxos
    else
      var n := |ins| - 1;
      var before := MarkInputs(utxos, ins[..n], spend);
      if ins[n] == NULL_OUTPOINT then before else MarkSpent(before, ins[n], spend)
  }

  // ---------------------------------------------------------------------------
  // Implicit transfer
  // ---------------------------------------------------------------------------

  /** The indices of the outputs that are not OP_RETURN. */
  function SpendableOutputs(outputs: seq<Script>): (vouts: seq<nat>)
    ensures forall v | v in vouts :: v < |outputs| && outputs[v].Spendable?
  {
    if outputs == [] then []
    else
      var n := |outputs| - 1;
      SpendableOutputs(outputs[..n]) + if outputs[n].Spendable? then [n] else []
  }

  const ZERO_H160: H160 := seq(20, _ => 0)

  function ScriptBytes(tx: Tx, vout: nat): seq<byte> {
    if vout < |tx.outputs| then tx.outputs[vout].bytes else []
  }

  /** The j-th token input goes to the j-th spendable output, or the last; with none it is burnt at output 0. */
  function Destination(tx: Tx, j: nat): nat {
    var vouts := SpendableOutputs(tx.outputs);
    if vouts == [] then 0 else vouts[Min(j, |vouts| - 1)]
  }

  function DestinationOwner(node: Node, tx: Tx, j: nat): H160 {
    if SpendableOutputs(tx.outputs) == [] then ZERO_H160 else node.hash160(ScriptBytes(tx, Destination(tx, j)))
  }

  function Transfer(node: Node, tx: Tx, input: TokenInput, j: nat): Write {
    var v := Destination(tx, j);
    Write(v, DestinationOwner(node, tx, j), ScriptBytes(tx, v), Coalesce(input.ranges))
  }

  function Transfers(node: Node, tx: Tx, inputs: seq<TokenInput>): seq<Write> {
    seq(|inputs|, j requires 0 <= j < |inputs| => Transfer(node, tx, inputs[j], j))
  }

  // ---------------------------------------------------------------------------
  // The plan of a transaction
  // ---------------------------------------------------------------------------

  datatype Plan = Plan(collection: Option<Collection>, writes: seq<Write>)

  ghost function PlanTx(t: Tables, node: Node, tx: Tx): Result<Plan, Brc721Error> {
    var inputs := TokenInputs(t, tx.inputs);
    match TxPayload(tx)
    case None => Ok(Plan(None, Transfers(node, tx, inputs)))
    case Some(Mix(d)) =>
      var outcome :- MixDigest.MixOutcome(d, tx, inputs, TokensFirst(t, tx.inputs));
      Ok(Plan(None, if outcome.Some? then MixDigest.MixWrites(node, tx, outcome.value) else []))
    case Some(RegisterCollection(c)) =>
      if tx.inputs == [] then Err(TxError)
      else Ok(Plan(Some(Collection(c.evmCollectionAddress, c.rebaseable)), Transfers(node, tx, inputs)))
    case Some(RegisterOwnership(d)) =>
      PayloadValid(tx);
      if tx.inputs == [] || |d.groups| >= |tx.outputs| then Err(TxError)
      else
        var registered :- RegisterDigest.RegisterOutcome(t.collections, node, tx, d);
        Ok(Plan(None, registered + Transfers(node, tx, inputs)))
  }

  lemma PayloadValid(tx: Tx)
    requires TxPayload(tx).Some?
    ensures ValidPayload(TxPayload(tx).value)
  {
    EncodeOfDecode(tx.outputs[0].payload.value);
  }

  function AfterSpending(t: Tables, tx: Tx, at: Position): Tables {
    t.(utxos := MarkInputs(t.utxos, tx.inputs, Spend(tx.txid, at)))
  }

  function WithCollection(t: Tables, at: Position, c: Option<Collection>): Tables {
    if c.None? then t
    else t.(collections := t.collections[CollectionKey(at.height, at.txIndex) := c.value])
  }

  function ApplyPlan(t: Tables, tx: Tx, at: Position, plan: Plan): Tables {
    ApplyWrites(WithCollection(AfterSpending(t, tx, at), at, plan.collection), tx.txid, at, plan.writes)
  }

  ghost function StepTx(t: Tables, node: Node, tx: Tx, at: Position): Result<Tables, Brc721Error> {
    var plan :- PlanTx(t, node, tx);
    Ok(ApplyPlan(t, tx, at, plan))
  }

  // ---------------------------------------------------------------------------
  // Runs of transactions, and blocks
  // ---------------------------------------------------------------------------

  datatype TxAt = TxAt(tx: Tx, at: Position)

  ghost function RunTxs(t: Tables, node: Node, txs: seq<TxAt>): Result<Tables, Brc721Error> {
    if txs == [] then Ok(t)
    else
      var n := |txs| - 1;
      var before :- RunTxs(t, node, txs[..n]);
      StepTx(before, node, txs[n].tx, txs[n].at)
  }

  datatype Block = Block(hash: nat, prevHash: nat, txs: seq<Tx>)

  /** Transaction indices are cast to `u32`. */
  predicate WfBlock(block: Block) {
    |block.txs| <= U32_MAX + 1 && forall i | 0 <= i < |block.txs| :: WfTx(block.txs[i])
  }

  /** The transactions of a block, each at its place in the chain. */
  function Placed(block: Block, height: nat): seq<TxAt> {
    seq(|block.txs|, i requires 0 <= i < |block.txs| => TxAt(block.txs[i], Position(height, i)))
  }

  // ---------------------------------------------------------------------------
  // The code of parse_tx
  // ---------------------------------------------------------------------------

  lemma {:induction false} OrderBySeqMembers(rows: seq<RangeRow>)
    ensures forall r | r in OrderBySeq(rows) :: r in rows
  {
    if rows != [] {
      var n := |rows| - 1;
      OrderBySeqMembers(rows[..n]);
      InsertBySeqMembers(rows[n], OrderBySeq(rows[..n]));
      assert forall r | r in rows[..n] :: r in rows;
    }
  }

  lemma {:induction false} InsertBySeqMembers(x: RangeRow, rows: seq<RangeRow>)
    ensures forall r | r in InsertBySeq(x, rows) :: r == x || r in rows
  {
    if rows != [] && rows[|rows| - 1].rangeSeq > x.rangeSeq {
      InsertBySeqMembers(x, rows[..|rows| - 1]);
    }
  }

  lemma {:induction false} JoinMembers(rows: seq<RangeRow>, utxos: map<UtxoKey, UtxoRow>, op: OutPoint)
    ensures forall r | r in JoinUnspent(rows, utxos, op) :: r in rows
  {
    if rows != [] {
      JoinMembers(rows[..|rows| - 1], utxos, op);
    }
  }

  lemma UnspentRangesMember(t: Tables, op: OutPoint, s: Slice)
    requires s in UnspentRanges(t, op)
    ensures exists r :: r in t.ranges && r.slice == s
  {
    var joined := JoinUnspent(t.ranges, t.utxos, op);
    JoinMembers(t.ranges, t.utxos, op);
    OrderBySeqMembers(joined);
    var i :| 0 <= i < |OrderBySeq(joined)| && UnspentRanges(t, op)[i] == s;
    assert OrderBySeq(joined)[i] in t.ranges;
  }

  lemma UnspentRangesStorable(t: Tables, op: OutPoint)
    requires RangesSound(t)
    ensures Storable(t, UnspentRanges(t, op))
  {
    forall s | s in UnspentRanges(t, op) ensures StoredSlice(s) && s.group.collection in t.collections {
      UnspentRangesMember(t, op, s);
    }
  }

  predicate InputsStored(inputs: seq<TokenInput>) {
    forall i, s | 0 <= i < |inputs| && s in inputs[i].ranges :: StoredSlice(s)
  }

  method ReadInputs(storage: SqliteTx, ins: seq<OutPoint>)
    returns (inputs: seq<TokenInput>, prefix: bool)
    requires RangesSound(storage.Contents())
    ensures inputs == TokenInputs(storage.Contents(), ins)
    ensures prefix <==> TokensFirst(storage.Contents(), ins)
    ensures InputsStored(inputs) && unchanged(storage)
  {
    inputs := [];
    prefix := true;
    var sawPlain := false;
    var t := storage.Contents();
    for i := 0 to |ins|
      invariant inputs == TokenInputs(t, ins[..i]) && InputsStored(inputs)
      invariant sawPlain <==> exists k :: 0 <= k < i && IsPlain(t, ins[k])
      invariant prefix <==> TokensFirst(t, ins[..i])
    {
      assert ins[..i + 1][..i] == ins[..i];
      TokensFirstPush(t, ins, i);
      var prevout := ins[i];
      if prevout == NULL_OUTPOINT {
        continue;
      }
      var ranges := UnspentRanges(t, prevout);
      UnspentRangesStorable(t, prevout);
      if |ranges| == 0 {
        assert IsPlain(t, ins[i]);
        sawPlain := true;
        continue;
      }
      if sawPlain {
        prefix := false;
      }
      inputs := inputs + [TokenInput(prevout, ranges)];
    }
    assert ins[..|ins|] == ins;
  }

  lemma TokensFirstPush(t: Tables, ins: seq<OutPoint>, i: nat)
    requires i < |ins|
    ensures TokensFirst(t, ins[..i + 1])
      <==> TokensFirst(t, ins[..i]) && (HoldsTokens(t, ins[i]) ==> forall k | 0 <= k < i :: !IsPlain(t, ins[k]))
  {
    var a, b := ins[..i], ins[..i + 1];
    assert forall k | 0 <= k < i :: a[k] == b[k] == ins[k];
    assert b[i] == ins[i];
  }

  method MarkInputsSpent(storage: SqliteTx, ins: seq<OutPoint>, spend: Spend)
    modifies storage`utxos
    ensures storage.Contents() == old(storage.Contents()).(utxos := MarkInputs(old(storage.utxos), ins, spend))
  {
    for i := 0 to |ins|
      invariant storage.utxos == MarkInputs(old(storage.utxos), ins[..i], spend)
    {
      assert ins[..i + 1][..i] == ins[..i];
      if ins[i] == NULL_OUTPOINT {
        continue;
      }
      storage.MarkOwnershipUtxoSpent(ins[i], spend);
    }
    assert ins[..|ins|] == ins;
  }

  method RemainingOutputs(outputs: seq<Script>) returns (vouts: seq<nat>)
    ensures vouts == SpendableOutputs(outputs)
  {
    vouts := [];
    for i := 0 to |outputs|
      invariant vouts == SpendableOutputs(outputs[..i])
    {
      assert outputs[..i + 1][..i] == outputs[..i];
      if outputs[i].Spendable? {
        vouts := vouts + [i];
      }
    }
    assert outputs[..|outputs|] == outputs;
  }

  /** Burn: no output can be spent, so everything goes to the null owner on output 0. */
  method BurnInputs(storage: SqliteTx, node: Node, tx: Tx, inputs: seq<TokenInput>, at: Position)
    requires InputsStored(inputs) && SpendableOutputs(tx.outputs) == []
    modifies storage`utxos, storage`ranges
    ensures storage.Contents() == ApplyWrites(old(storage.Contents()), tx.txid, at, Transfers(node, tx, inputs))
  {
    ghost var ws := Transfers(node, tx, inputs);
    var burnScript := if |tx.outputs| > 0 then tx.outputs[0].bytes else [];
    for j := 0 to |inputs|
      invariant storage.Contents() == ApplyWrites(old(storage.Contents()), tx.txid, at, ws[..j])
    {
      NextWrite(old(storage.Contents()), tx.txid, at, ws, j);
      var row := UtxoRow(ZERO_H160, burnScript, at, None);
      var saved := SaveRangesForOutput(storage, OutPoint(tx.txid, 0), row, inputs[j].ranges);
    }
    assert ws[..|ws|] == ws;
  }

  method MoveInputs(
    storage: SqliteTx, node: Node, tx: Tx, inputs: seq<TokenInput>, at: Position, remaining: seq<nat>)
    requires InputsStored(inputs) && remaining == SpendableOutputs(tx.outputs) && remaining != []
    modifies storage`utxos, storage`ranges
    ensures storage.Contents() == ApplyWrites(old(storage.Contents()), tx.txid, at, Transfers(node, tx, inputs))
  {
    ghost var ws := Transfers(node, tx, inputs);
    var lastOutput := remaining[|remaining| - 1];
    for j := 0 to |inputs|
      invariant storage.Contents() == ApplyWrites(old(storage.Contents()), tx.txid, at, ws[..j])
    {
      NextWrite(old(storage.Contents()), tx.txid, at, ws, j);
      var dest := if j < |remaining| then remaining[j] else lastOutput;
      assert dest in remaining;
      var script := tx.outputs[dest].bytes;
      var row := UtxoRow(node.hash160(script), script, at, None);
      var saved := SaveRangesForOutput(storage, OutPoint(tx.txid, dest), row, inputs[j].ranges);
    }
    assert ws[..|ws|] == ws;
  }

  /** Burn or implicit transfer of the token inputs. */
  method TransferInputs(storage: SqliteTx, node: Node, tx: Tx, inputs: seq<TokenInput>, at: Position)
    requires InputsStored(inputs)
    modifies storage`utxos, storage`ranges
    ensures storage.Contents() == ApplyWrites(old(storage.Contents()), tx.txid, at, Transfers(node, tx, inputs))
  {
    if |inputs| == 0 {
      return;
    }
    var remaining := RemainingOutputs(tx.outputs);
    if |remaining| == 0 {
      BurnInputs(storage, node, tx, inputs, at);
    } else {
      MoveInputs(storage, node, tx, inputs, at, remaining);
    }
  }

  method ParseTx(storage: SqliteTx, node: Node, tx: Tx, at: Position) returns (r: Result<(), Brc721Error>)
    requires RangesSound(storage.Contents()) && WfTx(tx)
    modifies storage`collections, storage`utxos, storage`ranges
    ensures match StepTx(old(storage.Contents()), node, tx, at)
            case Ok(t) => r.Ok? && storage.Contents() == t
            case Err(e) => r == Err(e)
  {
    ghost var t := storage.Contents();
    var inputs, prefix := ReadInputs(storage, tx.inputs);
    MarkInputsSpent(storage, tx.inputs, Spend(tx.txid, at));
    assert storage.Contents() == AfterSpending(t, tx, at);
    var parsed := ParseBrc721Tx(tx);
    var payload := if parsed.Ok? then parsed.value else None;
    if payload.Some? {
      PayloadValid(tx);
      match payload.value {
        case Mix(d) =>
          var handled := MixDigest.Digest(d, tx, inputs, prefix, storage, node, at);
          if handled.Err? {
            return Err(handled.error);
          }
          return Ok(());
        case RegisterCollection(c) =>
          if |tx.inputs| == 0 {
            return Err(TxError);
          }
          var key := CollectionKey(at.height, at.txIndex);
          storage.SaveCollection(key, Collection(c.evmCollectionAddress, c.rebaseable));
        case RegisterOwnership(d) =>
          if |tx.inputs| == 0 || |d.groups| >= |tx.outputs| {
            return Err(TxError);
          }
          var registered := RegisterDigest.Digest(d, tx, storage, node, at);
          if registered.Err? {
            return Err(registered.error);
          }
          ApplyWritesConcat(
            AfterSpending(t, tx, at), tx.txid, at,
            RegisterDigest.RegisterOutcome(t.collections, node, tx, d).value, Transfers(node, tx, inputs));
      }
    }
    TransferInputs(storage, node, tx, inputs, at);
    return Ok(());
  }
}
