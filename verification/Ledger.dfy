/** What one transaction does to the tokens at every outpoint. */
module Ledger {
  import opened Prelude
  import opened Tokens
  import opened Storage
  import opened TableInvariant
  import opened Transactions
  import opened MixPayload
  import opened MixRouting
  import opened Writes
  import opened Parser
  import MixDigest
  import RegisterDigest
  import Ownership = OwnershipPayload

  // ---------------------------------------------------------------------------
  // A sequence of writes to the outputs of a fresh transaction
  // ---------------------------------------------------------------------------

  /** No row mentions this transaction as the creator of an outpoint. */
  predicate FreshTxid(t: Tables, txid: Txid) {
    forall k | k in t.utxos :: k.outpoint.txid != txid
  }

  /** Everything a list of writes gives to output `v`, in order. */
  function WrittenAt(ws: seq<Write>, v: nat): seq<Slice> {
    if ws == [] then []
    else
      var n := |ws| - 1;
      WrittenAt(ws[..n], v) + if ws[n].vout == v then ws[n].slices else []
  }

  function OwnerAt(node: Node, tx: Tx, v: nat): H160 {
    if v == 0 && SpendableOutputs(tx.outputs) == [] then ZERO_H160 else node.hash160(ScriptBytes(tx, v))
  }

  /** The row recorded for output `v`, whichever step of the transaction writes there. */
  function OutputRow(node: Node, tx: Tx, at: Position, v: nat): UtxoRow {
    UtxoRow(OwnerAt(node, tx, v), ScriptBytes(tx, v), at, None)
  }

  ghost predicate RowsFit(ws: seq<Write>, node: Node, tx: Tx, at: Position) {
    forall w | w in ws :: RowOf(w, at) == OutputRow(node, tx, at, w.vout)
  }

  ghost predicate WritesStorable(t: Tables, ws: seq<Write>) {
    forall w | w in ws :: Storable(t, w.slices)
  }

  /** Rows of this transaction's outpoints are the ones it records. */
  ghost predicate OwnRows(t: Tables, node: Node, tx: Tx, at: Position) {
    forall k | k in t.utxos && k.outpoint.txid == tx.txid :: t.utxos[k] == OutputRow(node, tx, at, k.outpoint.vout)
  }

  lemma SplitWrites(ws: seq<Write>) returns (init: seq<Write>, w: Write)
    requires ws != []
    ensures ws == init + [w] && |init| + 1 == |ws| && init == ws[..|ws| - 1]
  {
    init, w := ws[..|ws| - 1], ws[|ws| - 1];
  }

  lemma WritesAssoc(ws: seq<Write>, vs: seq<Write>, w: Write)
    ensures ws + (vs + [w]) == ws + vs + [w]
  {
  }

  lemma SlicesAssoc(a: seq<Slice>, b: seq<Slice>, c: seq<Slice>)
    ensures a + b + c == a + (b + c)
  {
  }

  lemma WrittenAtPush(ws: seq<Write>, w: Write, v: nat)
    ensures WrittenAt(ws + [w], v) == if w.vout == v then WrittenAt(ws, v) + w.slices else WrittenAt(ws, v)
  {
    assert (ws + [w])[..|ws|] == ws;
  }

  lemma {:induction false} AppendNewConcat(xs: seq<Slice>, ys: seq<Slice>, zs: seq<Slice>)
    ensures AppendNew(xs, ys + zs) == AppendNew(AppendNew(xs, ys), zs)
  {
    if zs == [] {
      assert ys + zs == ys;
    } else {
      var n := |zs| - 1;
      AppendNewConcat(xs, ys, zs[..n]);
      assert (ys + zs)[..|ys + zs| - 1] == ys + zs[..n];
    }
  }

  lemma WriteOwnRows(t: Tables, node: Node, tx: Tx, at: Position, w: Write)
    requires Inv(t) && OwnRows(t, node, tx, at) && RowOf(w, at) == OutputRow(node, tx, at, w.vout)
    ensures AgreesWith(t.utxos, OutPoint(tx.txid, w.vout), RowOf(w, at))
    ensures OwnRows(ApplyWrite(t, tx.txid, at, w), node, tx, at)
  {
    WriteKeepsUniform(t, OutPoint(tx.txid, w.vout), RowOf(w, at), w.slices);
  }

  lemma {:induction false} WritesKeepInv(t: Tables, node: Node, tx: Tx, at: Position, ws: seq<Write>)
    requires Inv(t) && OwnRows(t, node, tx, at) && RowsFit(ws, node, tx, at) && WritesStorable(t, ws)
    ensures Inv(ApplyWrites(t, tx.txid, at, ws))
    ensures OwnRows(ApplyWrites(t, tx.txid, at, ws), node, tx, at)
    ensures ApplyWrites(t, tx.txid, at, ws).collections == t.collections
  {
    if ws != [] {
      var n := |ws| - 1;
      assert ws[n] in ws && forall w | w in ws[..n] :: w in ws;
      WritesKeepInv(t, node, tx, at, ws[..n]);
      var t1 := ApplyWrites(t, tx.txid, at, ws[..n]);
      WriteOwnRows(t1, node, tx, at, ws[n]);
      WriteKeepsInv(t1, OutPoint(tx.txid, ws[n].vout), RowOf(ws[n], at), ws[n].slices);
    }
  }

  /** Each outpoint of the transaction ends with what was written to it; no other outpoint changes. */
  lemma {:induction false} WritesEffect(
    t: Tables, node: Node, tx: Tx, at: Position, ws: seq<Write>, op: OutPoint)
    requires Inv(t) && OwnRows(t, node, tx, at) && RowsFit(ws, node, tx, at) && WritesStorable(t, ws)
    ensures UnspentRanges(ApplyWrites(t, tx.txid, at, ws), op)
         == if op.txid == tx.txid then AppendNew(UnspentRanges(t, op), WrittenAt(ws, op.vout))
            else UnspentRanges(t, op)
  {
    if ws != [] {
      var n := |ws| - 1;
      assert ws[n] in ws && forall w | w in ws[..n] :: w in ws;
      WritesEffect(t, node, tx, at, ws[..n], op);
      WritesKeepInv(t, node, tx, at, ws[..n]);
      LastWriteEffect(t, ApplyWrites(t, tx.txid, at, ws[..n]), node, tx, at, ws, op);
    }
  }

  lemma FitWrite(t: Tables, t1: Tables, node: Node, tx: Tx, at: Position, ws: seq<Write>, w: Write)
    requires w in ws && RowsFit(ws, node, tx, at) && WritesStorable(t, ws) && t1.collections == t.collections
    ensures RowOf(w, at) == OutputRow(node, tx, at, w.vout) && Storable(t1, w.slices)
  {
    hide RowOf, OutputRow;
  }

  lemma ApplyWriteIs(t: Tables, txid: Txid, at: Position, w: Write)
    ensures ApplyWrite(t, txid, at, w) == WriteOutput(t, OutPoint(txid, w.vout), RowOf(w, at), w.slices)
  {
  }

  lemma LastWriteEffect(t: Tables, t1: Tables, node: Node, tx: Tx, at: Position, ws: seq<Write>, op: OutPoint)
    requires ws != [] && Inv(t1) && OwnRows(t1, node, tx, at)
    requires RowsFit(ws, node, tx, at) && WritesStorable(t, ws) && t1.collections == t.collections
    requires UnspentRanges(t1, op)
          == if op.txid == tx.txid then AppendNew(UnspentRanges(t, op), WrittenAt(ws[..|ws| - 1], op.vout))
             else UnspentRanges(t, op)
    ensures UnspentRanges(ApplyWrite(t1, tx.txid, at, ws[|ws| - 1]), op)
         == if op.txid == tx.txid then AppendNew(UnspentRanges(t, op), WrittenAt(ws, op.vout))
            else UnspentRanges(t, op)
  {
    hide *;
    var init, w := SplitWrites(ws);
    FitWrite(t, t1, node, tx, at, ws, w);
    WriteOwnRows(t1, node, tx, at, w);
    ApplyWriteIs(t1, tx.txid, at, w);
    WriteEffect(t1, OutPoint(tx.txid, w.vout), RowOf(w, at), w.slices, op);
    AppendNewConcat(UnspentRanges(t, op), WrittenAt(init, op.vout), w.slices);
    WrittenAtPush(init, w, op.vout);
  }

  lemma {:induction false} WritesKeys(t: Tables, txid: Txid, at: Position, ws: seq<Write>)
    ensures forall k | k in ApplyWrites(t, txid, at, ws).utxos :: k in t.utxos || k.outpoint.txid == txid
  {
    if ws != [] {
      var n := |ws| - 1;
      WritesKeys(t, txid, at, ws[..n]);
      InsertGroupsKeys(
        ApplyWrites(t, txid, at, ws[..n]).utxos, OutPoint(txid, ws[n].vout), RowOf(ws[n], at),
        UniqueGroups(ws[n].slices));
    }
  }

  // ---------------------------------------------------------------------------
  // Spending the inputs
  // ---------------------------------------------------------------------------

  predicate Spends(tx: Tx, op: OutPoint) {
    op != NULL_OUTPOINT && op in tx.inputs
  }

  lemma {:induction false} MarkInputsEffect(t: Tables, ins: seq<OutPoint>, spend: Spend, op: OutPoint)
    requires Inv(t)
    ensures var t' := t.(utxos := MarkInputs(t.utxos, ins, spend));
            && Inv(t') && t'.utxos.Keys == t.utxos.Keys
            && UnspentRanges(t', op) == if op != NULL_OUTPOINT && op in ins then [] else UnspentRanges(t, op)
  {
    if ins != [] {
      hide Inv, UnspentRanges, MarkSpent;
      var n := |ins| - 1;
      MarkInputsEffect(t, ins[..n], spend, op);
      assert op in ins <==> op in ins[..n] || op == ins[n];
      if ins[n] != NULL_OUTPOINT {
        SpendEffect(t.(utxos := MarkInputs(t.utxos, ins[..n], spend)), ins[n], spend, op);
      }
    }
  }

  /** The tables after the inputs are spent and any collection is registered. */
  function Prepared(t: Tables, tx: Tx, at: Position, plan: Plan): Tables {
    WithCollection(AfterSpending(t, tx, at), at, plan.collection)
  }

  lemma PreparedEffect(t: Tables, tx: Tx, at: Position, plan: Plan, op: OutPoint)
    requires Inv(t)
    ensures Inv(Prepared(t, tx, at, plan))
    ensures Prepared(t, tx, at, plan).utxos.Keys == t.utxos.Keys
    ensures forall c | c in t.collections :: c in Prepared(t, tx, at, plan).collections
    ensures UnspentRanges(Prepared(t, tx, at, plan), op) == if Spends(tx, op) then [] else UnspentRanges(t, op)
  {
    MarkInputsEffect(t, tx.inputs, Spend(tx.txid, at), op);
    if plan.collection.Some? {
      CollectionEffect(
        AfterSpending(t, tx, at), CollectionKey(at.height, at.txIndex), plan.collection.value, op);
    }
  }

  // ---------------------------------------------------------------------------
  // Every plan can be stored, and its rows agree
  // ---------------------------------------------------------------------------

  lemma {:induction false} TokenInputMember(t: Tables, ins: seq<OutPoint>, input: TokenInput)
    ensures input in TokenInputs(t, ins)
      <==> input.outpoint in ins && HoldsTokens(t, input.outpoint) && input.ranges == UnspentRanges(t, input.outpoint)
  {
    if ins != [] {
      var n := |ins| - 1;
      TokenInputMember(t, ins[..n], input);
      assert ins == ins[..n] + [ins[n]];
    }
  }

  lemma InputStorable(t: Tables, ins: seq<OutPoint>, input: TokenInput)
    requires RangesSound(t) && input in TokenInputs(t, ins)
    ensures Storable(t, input.ranges)
  {
    TokenInputMember(t, ins, input);
    UnspentRangesStorable(t, input.outpoint);
  }

  lemma InputsStorable(t: Tables, ins: seq<OutPoint>)
    requires RangesSound(t)
    ensures Storable(t, AllRanges(TokenInputs(t, ins)))
  {
    var inputs := TokenInputs(t, ins);
    forall s | s in AllRanges(inputs) ensures StoredSlice(s) && s.group.collection in t.collections {
      MixDigest.AllRangesMember(inputs, s);
      var i :| 0 <= i < |inputs| && s in inputs[i].ranges;
      InputStorable(t, ins, inputs[i]);
    }
  }

  lemma CoalesceStorable(t: Tables, ranges: seq<Slice>)
    requires Storable(t, ranges)
    ensures Storable(t, Coalesce(ranges))
  {
    TokensOfStorable(t, ranges);
    CoalesceCanonical(ranges, ranges);
    StorableOfTokens(t, Coalesce(ranges));
  }

  lemma TransfersFit(t: Tables, node: Node, tx: Tx, at: Position)
    requires RangesSound(t)
    ensures RowsFit(Transfers(node, tx, TokenInputs(t, tx.inputs)), node, tx, at)
    ensures WritesStorable(t, Transfers(node, tx, TokenInputs(t, tx.inputs)))
  {
    var inputs := TokenInputs(t, tx.inputs);
    var ws := Transfers(node, tx, inputs);
    forall w | w in ws ensures RowOf(w, at) == OutputRow(node, tx, at, w.vout) && Storable(t, w.slices) {
      var j :| 0 <= j < |ws| && ws[j] == w;
      assert inputs[j] in inputs;
      InputStorable(t, tx.inputs, inputs[j]);
      CoalesceStorable(t, inputs[j].ranges);
      var vouts := SpendableOutputs(tx.outputs);
      assert vouts != [] ==> Destination(tx, j) in vouts;
    }
  }

  lemma RoutedStorable(t: Tables, rs: seq<Slice>, d: MixData, k: nat)
    requires Storable(t, rs)
    ensures Storable(t, Compress(Routed(Flatten(rs), d, k)))
    ensures Flatten(Compress(Routed(Flatten(rs), d, k))) == Routed(Flatten(rs), d, k)
  {
    TokensOfStorable(t, rs);
    var routed := Routed(Flatten(rs), d, k);
    MixDigest.RoutedMembers(Flatten(rs), d, k);
    assert TokensFit(routed) by {
      forall i | 0 <= i < |routed| ensures routed[i].slot <= U128_MAX {
        assert routed[i] in routed;
      }
    }
    CompressFlatten(routed);
    StorableOfTokens(t, Compress(routed));
  }

  lemma PartsAre(d: MixData, tx: Tx, inputs: seq<TokenInput>, prefix: bool, parts: seq<seq<Slice>>)
    requires MixDigest.MixOutcome(d, tx, inputs, prefix) == Ok(Some(parts))
    ensures |parts| == |d.outputRanges| < |tx.outputs|
    ensures forall k | 0 <= k < |parts| :: parts[k] == Compress(Routed(Flatten(AllRanges(inputs)), d, k))
  {
    hide Compress, Routed, Flatten, AllRanges, MixDigest.Countable, MixDigest.MixWellPlaced;
  }

  lemma MixWriteFits(node: Node, tx: Tx, at: Position, part: seq<Slice>, k: nat)
    requires k + 1 < |tx.outputs|
    ensures var w := MixDigest.MixWrite(node, tx, part, k);
            RowOf(w, at) == OutputRow(node, tx, at, w.vout) && w.slices == part
  {
  }

  lemma MixWritesAre(node: Node, tx: Tx, parts: seq<seq<Slice>>, w: Write) returns (k: nat)
    requires |parts| < |tx.outputs| && w in MixDigest.MixWrites(node, tx, parts)
    ensures k < |parts| && w == MixDigest.MixWrite(node, tx, parts[k], k)
  {
    var ws := MixDigest.MixWrites(node, tx, parts);
    k :| 0 <= k < |ws| && ws[k] == w;
  }

  lemma MixWritesFit(
    t: Tables, node: Node, tx: Tx, at: Position, d: MixData, parts: seq<seq<Slice>>)
    requires RangesSound(t)
    requires MixDigest.MixOutcome(d, tx, TokenInputs(t, tx.inputs), TokensFirst(t, tx.inputs)) == Ok(Some(parts))
    ensures RowsFit(MixDigest.MixWrites(node, tx, parts), node, tx, at)
    ensures WritesStorable(t, MixDigest.MixWrites(node, tx, parts))
  {
    hide Storable, Compress, Routed, Flatten, AllRanges, TokenInputs, TokensFirst, RangesSound, RowOf, OutputRow,
      MixDigest.MixOutcome, MixDigest.MixWrites, MixDigest.MixWrite;
    PartsAre(d, tx, TokenInputs(t, tx.inputs), TokensFirst(t, tx.inputs), parts);
    InputsStorable(t, tx.inputs);
    var ws := MixDigest.MixWrites(node, tx, parts);
    forall w | w in ws ensures RowOf(w, at) == OutputRow(node, tx, at, w.vout) && Storable(t, w.slices) {
      var k := MixWritesAre(node, tx, parts, w);
      MixWriteFits(node, tx, at, parts[k], k);
      RoutedStorable(t, AllRanges(TokenInputs(t, tx.inputs)), d, k);
    }
  }

  lemma RegisterWritesFit(
    t: Tables, node: Node, tx: Tx, at: Position, group: Group, groups: seq<Ownership.OwnershipGroup>)
    requires group.collection in t.collections && |groups| < |tx.outputs|
    requires forall k | 0 <= k < |groups| :: Ownership.WfGroup(groups[k])
    ensures RowsFit(RegisterDigest.RegisterWrites(node, tx, group, groups), node, tx, at)
    ensures WritesStorable(t, RegisterDigest.RegisterWrites(node, tx, group, groups))
  {
    var ws := RegisterDigest.RegisterWrites(node, tx, group, groups);
    forall w | w in ws ensures RowOf(w, at) == OutputRow(node, tx, at, w.vout) && Storable(t, w.slices) {
      var k :| 0 <= k < |ws| && ws[k] == w;
      forall s | s in w.slices ensures StoredSlice(s) && s.group.collection in t.collections {
        var i :| 0 <= i < |w.slices| && w.slices[i] == s;
        assert Ownership.WfSlots(groups[k][i]);
      }
    }
  }

  lemma PlanFits(t: Tables, node: Node, tx: Tx, at: Position)
    requires RangesSound(t) && PlanTx(t, node, tx).Ok?
    ensures var plan := PlanTx(t, node, tx).value;
            RowsFit(plan.writes, node, tx, at) && WritesStorable(t, plan.writes)
  {
    TransfersFit(t, node, tx, at);
    var inputs := TokenInputs(t, tx.inputs);
    if TxPayload(tx).Some? {
      PayloadValid(tx);
      match TxPayload(tx).value
      case Mix(d) =>
        var outcome := MixDigest.MixOutcome(d, tx, inputs, TokensFirst(t, tx.inputs)).value;
        if outcome.Some? {
          MixWritesFit(t, node, tx, at, d, outcome.value);
        }
      case RegisterCollection(_) =>
      case RegisterOwnership(d) =>
        var registered := RegisterDigest.RegisterOutcome(t.collections, node, tx, d).value;
        if registered != [] {
          RegisterWritesFit(
            t, node, tx, at, Group(RegisterDigest.CollectionOf(d), RegisterDigest.BaseH160(node, tx).value), d.groups);
        }
        ConcatFits(t, node, tx, at, registered, Transfers(node, tx, inputs));
    }
  }

  lemma ConcatFits(t: Tables, node: Node, tx: Tx, at: Position, ws: seq<Write>, vs: seq<Write>)
    requires RowsFit(ws, node, tx, at) && WritesStorable(t, ws)
    requires RowsFit(vs, node, tx, at) && WritesStorable(t, vs)
    ensures RowsFit(ws + vs, node, tx, at) && WritesStorable(t, ws + vs)
  {
    assert forall w | w in ws + vs :: w in ws || w in vs;
  }

  // ---------------------------------------------------------------------------
  // One transaction
  // ---------------------------------------------------------------------------

  lemma PreparedFits(t: Tables, node: Node, tx: Tx, at: Position)
    requires Inv(t) && FreshTxid(t, tx.txid) && PlanTx(t, node, tx).Ok?
    ensures var plan := PlanTx(t, node, tx).value;
            var t1 := Prepared(t, tx, at, plan);
            && Inv(t1) && OwnRows(t1, node, tx, at)
            && RowsFit(plan.writes, node, tx, at) && WritesStorable(t1, plan.writes)
  {
    var plan := PlanTx(t, node, tx).value;
    PlanFits(t, node, tx, at);
    PreparedEffect(t, tx, at, plan, NULL_OUTPOINT);
    var t1 := Prepared(t, tx, at, plan);
    forall w | w in plan.writes ensures Storable(t1, w.slices) {
      assert Storable(t, w.slices);
    }
  }

  /** The table invariant survives every transaction. */
  lemma StepKeepsInv(t: Tables, node: Node, tx: Tx, at: Position)
    requires Inv(t) && FreshTxid(t, tx.txid) && StepTx(t, node, tx, at).Ok?
    ensures Inv(StepTx(t, node, tx, at).value)
    ensures forall k | k in StepTx(t, node, tx, at).value.utxos :: k in t.utxos || k.outpoint.txid == tx.txid
  {
    var plan := PlanTx(t, node, tx).value;
    var t1 := Prepared(t, tx, at, plan);
    PreparedFits(t, node, tx, at);
    PreparedEffect(t, tx, at, plan, NULL_OUTPOINT);
    WritesKeepInv(t1, node, tx, at, plan.writes);
    WritesKeys(t1, tx.txid, at, plan.writes);
  }

  lemma FreshHasNothing(t: Tables, op: OutPoint)
    requires Inv(t) && FreshTxid(t, op.txid)
    ensures UnspentRanges(t, op) == []
  {
    QueryMeaning(t, op);
  }

  /**
    What a transaction leaves at every outpoint: its own outputs hold what the plan wrote there, the
    outpoints it spends hold nothing, and all others are as before.
    */
  lemma StepEffect(t: Tables, node: Node, tx: Tx, at: Position, op: OutPoint)
    requires Inv(t) && FreshTxid(t, tx.txid) && StepTx(t, node, tx, at).Ok?
    ensures UnspentRanges(StepTx(t, node, tx, at).value, op)
         == if op.txid == tx.txid then AppendNew([], WrittenAt(PlanTx(t, node, tx).value.writes, op.vout))
            else if Spends(tx, op) then [] else UnspentRanges(t, op)
  {
    var plan := PlanTx(t, node, tx).value;
    var t1 := Prepared(t, tx, at, plan);
    PreparedFits(t, node, tx, at);
    PreparedEffect(t, tx, at, plan, op);
    WritesEffect(t1, node, tx, at, plan.writes, op);
    if op.txid == tx.txid {
      FreshHasNothing(t, op);
    }
  }

  // ---------------------------------------------------------------------------
  // Rows that were there before
  // ---------------------------------------------------------------------------

  lemma {:induction false} MarkInputsRow(utxos: map<UtxoKey, UtxoRow>, ins: seq<OutPoint>, spend: Spend, k: UtxoKey)
    requires k in utxos
    ensures k in MarkInputs(utxos, ins, spend)
    ensures MarkInputs(utxos, ins, spend)[k]
         == if k.outpoint != NULL_OUTPOINT && k.outpoint in ins && utxos[k].spent.None?
            then utxos[k].(spent := Some(spend)) else utxos[k]
    decreases |ins|
  {
    if ins != [] {
      var n := |ins| - 1;
      MarkInputsRow(utxos, ins[..n], spend, k);
      assert k.outpoint in ins <==> k.outpoint in ins[..n] || k.outpoint == ins[n];
    }
  }

  lemma {:induction false} WritesKeepRow(t: Tables, txid: Txid, at: Position, ws: seq<Write>, k: UtxoKey)
    requires k in t.utxos
    ensures k in ApplyWrites(t, txid, at, ws).utxos && ApplyWrites(t, txid, at, ws).utxos[k] == t.utxos[k]
    decreases |ws|
  {
    if ws != [] {
      var n := |ws| - 1;
      WritesKeepRow(t, txid, at, ws[..n], k);
      InsertGroupsKeys(
        ApplyWrites(t, txid, at, ws[..n]).utxos, OutPoint(txid, ws[n].vout), RowOf(ws[n], at),
        UniqueGroups(ws[n].slices));
    }
  }

  /**
    A row once stored keeps its owner, script and creation point for good; its spent mark is set by the
    first transaction that spends the outpoint, and never changes again.
    */
  lemma StepKeepsRow(t: Tables, node: Node, tx: Tx, at: Position, k: UtxoKey)
    requires StepTx(t, node, tx, at).Ok? && k in t.utxos
    ensures k in StepTx(t, node, tx, at).value.utxos
    ensures StepTx(t, node, tx, at).value.utxos[k]
         == if Spends(tx, k.outpoint) && t.utxos[k].spent.None?
            then t.utxos[k].(spent := Some(Spend(tx.txid, at))) else t.utxos[k]
  {
    var plan := PlanTx(t, node, tx).value;
    MarkInputsRow(t.utxos, tx.inputs, Spend(tx.txid, at), k);
    WritesKeepRow(Prepared(t, tx, at, plan), tx.txid, at, plan.writes, k);
  }

  lemma {:induction false} InsertRangesAppends(rows: seq<RangeRow>, op: OutPoint, slices: seq<Slice>)
    ensures rows <= InsertRanges(rows, op, slices)
    decreases |slices|
  {
    if slices != [] {
      InsertRangesAppends(rows, op, slices[..|slices| - 1]);
    }
  }

  lemma {:induction false} WritesAppendRanges(t: Tables, txid: Txid, at: Position, ws: seq<Write>)
    ensures t.ranges <= ApplyWrites(t, txid, at, ws).ranges
    decreases |ws|
  {
    if ws != [] {
      var n := |ws| - 1;
      WritesAppendRanges(t, txid, at, ws[..n]);
      InsertRangesAppends(ApplyWrites(t, txid, at, ws[..n]).ranges, OutPoint(txid, ws[n].vout), ws[n].slices);
    }
  }

  /** Range rows are only ever appended. */
  lemma StepAppendsRanges(t: Tables, node: Node, tx: Tx, at: Position)
    requires StepTx(t, node, tx, at).Ok?
    ensures t.ranges <= StepTx(t, node, tx, at).value.ranges
  {
    var plan := PlanTx(t, node, tx).value;
    WritesAppendRanges(Prepared(t, tx, at, plan), tx.txid, at, plan.writes);
  }

  // ---------------------------------------------------------------------------
  // Collections
  // ---------------------------------------------------------------------------

  lemma {:induction false} WritesKeepCollections(t: Tables, txid: Txid, at: Position, ws: seq<Write>)
    ensures ApplyWrites(t, txid, at, ws).collections == t.collections
    decreases |ws|
  {
    if ws != [] {
      WritesKeepCollections(t, txid, at, ws[..|ws| - 1]);
    }
  }

  /** A register-collection transaction stores its collection under its own height and index; no other stores one. */
  lemma StepCollections(t: Tables, node: Node, tx: Tx, at: Position)
    requires StepTx(t, node, tx, at).Ok?
    ensures StepTx(t, node, tx, at).value.collections
         == match TxPayload(tx)
            case Some(RegisterCollection(c)) =>
              t.collections[CollectionKey(at.height, at.txIndex) := Collection(c.evmCollectionAddress, c.rebaseable)]
            case _ => t.collections
  {
    var plan := PlanTx(t, node, tx).value;
    WritesKeepCollections(Prepared(t, tx, at, plan), tx.txid, at, plan.writes);
  }
}
