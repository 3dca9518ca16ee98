/** Which tokens each output of a transaction holds afterwards, in order, and under which owner. */
module Delivery {
  import opened Prelude
  import opened Spans
  import opened Tokens
  import opened Storage
  import opened TableInvariant
  import opened Transactions
  import opened MixPayload
  import opened MixRouting
  import opened Writes
  import opened Parser
  import opened Ledger
  import opened Accounting
  import opened SingleHolder
  import Payload
  import MixDigest

  // ---------------------------------------------------------------------------
  // Without repeated tokens, nothing collapses
  // ---------------------------------------------------------------------------

  lemma MemberTokens(xs: seq<Slice>, s: Slice)
    requires s in xs && s.start <= s.end
    ensures Token(s.group, s.start) in Flatten(xs)
  {
    var i :| 0 <= i < |xs| && xs[i] == s;
    var x := Token(s.group, s.start);
    assert Covers(xs[i], x);
    FlattenCovers(xs, x);
  }

  lemma {:induction false} AppendNewExact(xs: seq<Slice>, ys: seq<Slice>)
    requires WfSlices(ys)
    requires forall x :: Count(Flatten(xs), x) + Count(Flatten(ys), x) <= 1
    ensures AppendNew(xs, ys) == xs + ys
  {
    if ys != [] {
      var n := |ys| - 1;
      var s := ys[n];
      assert WfSlices(ys[..n]);
      forall x ensures Count(Flatten(xs), x) + Count(Flatten(ys[..n]), x) <= 1 {
        FlattenPush(ys[..n], s);
        assert ys == ys[..n] + [s];
        CountConcat(Flatten(ys[..n]), Run(s), x);
      }
      AppendNewExact(xs, ys[..n]);
      assert ys == ys[..n] + [s];
      assert xs + ys == xs + ys[..n] + [s];
      if s in xs + ys[..n] {
        RepeatedSlice(xs, ys[..n], s);
        assert false;
      }
    }
  }

  lemma RepeatedSlice(xs: seq<Slice>, ys: seq<Slice>, s: Slice)
    requires WfSlice(s) && s in xs + ys
    ensures var x := Token(s.group, s.start); Count(Flatten(xs), x) + Count(Flatten(ys + [s]), x) > 1
  {
    var x := Token(s.group, s.start);
    FlattenPush(ys, s);
    CountConcat(Flatten(ys), Run(s), x);
    RunCovers(s, x);
    HeldIsCounted(Run(s), x);
    if s in xs {
      MemberTokens(xs, s);
      HeldIsCounted(Flatten(xs), x);
    } else {
      MemberTokens(ys, s);
      HeldIsCounted(Flatten(ys), x);
    }
  }

  lemma {:induction false} WrittenAtStorable(t: Tables, ws: seq<Write>, v: nat)
    requires WritesStorable(t, ws)
    ensures Storable(t, WrittenAt(ws, v))
  {
    if ws != [] {
      var n := |ws| - 1;
      assert ws[n] in ws && forall w | w in ws[..n] :: w in ws;
      WrittenAtStorable(t, ws[..n], v);
    }
  }

  lemma {:induction false} AppendDistinct(xs: seq<Slice>)
    requires Distinct(xs)
    ensures AppendNew([], xs) == xs
  {
    if xs != [] {
      var n := |xs| - 1;
      AppendDistinct(xs[..n]);
      assert xs == xs[..n] + [xs[n]];
    }
  }

  /**
    Whether an output keeps the ranges as they were written, in order: exactly when none of them is
    written to it twice. Nothing is asked of the tables, the inputs or the holders.
    */
  lemma StoredAsWrittenIff(t: Tables, node: Node, tx: Tx, at: Position, v: nat)
    requires Inv(t) && FreshTxid(t, tx.txid) && StepTx(t, node, tx, at).Ok?
    ensures UnspentRanges(StepTx(t, node, tx, at).value, OutPoint(tx.txid, v))
         == WrittenAt(PlanTx(t, node, tx).value.writes, v)
      <==> Distinct(WrittenAt(PlanTx(t, node, tx).value.writes, v))
  {
    var written := WrittenAt(PlanTx(t, node, tx).value.writes, v);
    StepEffect(t, node, tx, at, OutPoint(tx.txid, v));
    AppendNewDistinct([], written);
    if Distinct(written) {
      AppendDistinct(written);
    }
  }

  /** The tokens of an output are those written to it, whether or not ranges were dropped as duplicates. */
  lemma HeldAtOutput(t: Tables, node: Node, tx: Tx, at: Position, v: nat, x: Token)
    requires Inv(t) && FreshTxid(t, tx.txid) && StepTx(t, node, tx, at).Ok?
    ensures HeldAt(StepTx(t, node, tx, at).value, OutPoint(tx.txid, v), x)
      <==> x in Flatten(WrittenAt(PlanTx(t, node, tx).value.writes, v))
  {
    StepEffect(t, node, tx, at, OutPoint(tx.txid, v));
    AppendNewTokens([], WrittenAt(PlanTx(t, node, tx).value.writes, v), x);
  }

  /** The transaction's own inputs hold no token twice; other holders do not matter. */
  ghost predicate DisjointInputs(t: Tables, ins: seq<OutPoint>) {
    forall x :: Count(Flatten(AllRanges(TokenInputs(t, ins))), x) <= 1
  }

  lemma SingleInputsDisjoint(t: Tables, ins: seq<OutPoint>)
    requires Single(t) && DistinctInputs(ins)
    ensures DisjointInputs(t, ins)
  {
    forall x ensures Count(Flatten(AllRanges(TokenInputs(t, ins))), x) <= 1 {
      InputsCount(t, ins, x);
    }
  }

  /** The inputs and the registered ranges together name no token twice. */
  ghost predicate NamesOnce(t: Tables, node: Node, tx: Tx) {
    forall x ::
      Count(Flatten(AllRanges(TokenInputs(t, tx.inputs))), x)
      + Count(Flatten(AllSlices(RegisterPart(t, node, tx))), x) <= 1
  }

  lemma NothingRegistered(t: Tables, node: Node, tx: Tx)
    requires DisjointInputs(t, tx.inputs) && RegisterPart(t, node, tx) == []
    ensures NamesOnce(t, node, tx)
  {
    assert AllSlices([]) == [] && Flatten([]) == [];
  }

  /** From single holding it is enough that the registration names only new slots, none twice. */
  lemma NewNamesOnce(t: Tables, node: Node, tx: Tx)
    requires Single(t) && DistinctInputs(tx.inputs) && NewRegistration(t, node, tx)
    ensures NamesOnce(t, node, tx)
  {
    forall x
      ensures Count(Flatten(AllRanges(TokenInputs(t, tx.inputs))), x)
              + Count(Flatten(AllSlices(RegisterPart(t, node, tx))), x) <= 1
    {
      InputsCount(t, tx.inputs, x);
      HeldIsCounted(Flatten(AllSlices(RegisterPart(t, node, tx))), x);
      AllSlicesTokens(RegisterPart(t, node, tx), x);
      if Registers(t, node, tx, x) {
        assert forall op :: HeldAt(t, op, x) ==> Held(t, x);
      }
    }
  }

  /** When inputs and registration name no token twice, an output holds exactly what was written to it, in order. */
  lemma ExactAtOutput(t: Tables, node: Node, tx: Tx, at: Position, v: nat)
    requires Inv(t) && FreshTxid(t, tx.txid) && StepTx(t, node, tx, at).Ok?
    requires NamesOnce(t, node, tx)
    ensures UnspentRanges(StepTx(t, node, tx, at).value, OutPoint(tx.txid, v))
         == WrittenAt(PlanTx(t, node, tx).value.writes, v)
  {
    var ws := PlanTx(t, node, tx).value.writes;
    StepEffect(t, node, tx, at, OutPoint(tx.txid, v));
    PlanFits(t, node, tx, at);
    WrittenAtStorable(t, ws, v);
    TokensOfStorable(t, WrittenAt(ws, v));
    forall x ensures Count(Flatten([]), x) + Count(Flatten(WrittenAt(ws, v)), x) <= 1 {
      PlanCount(t, node, tx, x);
      WrittenAtCount(ws, v, v, x);
    }
    AppendNewExact([], WrittenAt(ws, v));
    assert [] + WrittenAt(ws, v) == WrittenAt(ws, v);
  }

  /**
    Every row of the transaction's own outpoints is unspent, was created here, and names the script of its
    output and the hash of that script; only a burn at output 0 names the null owner instead.
    */
  lemma OwnersRecorded(t: Tables, node: Node, tx: Tx, at: Position, k: UtxoKey)
    requires Inv(t) && FreshTxid(t, tx.txid) && StepTx(t, node, tx, at).Ok?
    requires k in StepTx(t, node, tx, at).value.utxos && k.outpoint.txid == tx.txid
    ensures var row, v := StepTx(t, node, tx, at).value.utxos[k], k.outpoint.vout;
            && row.spent == None && row.created == at
            && row.script == (if v < |tx.outputs| then tx.outputs[v].bytes else [])
            && row.owner == if v == 0 && (forall u | 0 <= u < |tx.outputs| :: tx.outputs[u].OpReturn?)
                            then ZERO_H160 else node.hash160(row.script)
  {
    var plan := PlanTx(t, node, tx).value;
    PreparedFits(t, node, tx, at);
    WritesKeepInv(Prepared(t, tx, at, plan), node, tx, at, plan.writes);
    PayableOrNone(tx.outputs);
  }

  lemma PayableOrNone(outputs: seq<Script>)
    ensures SpendableOutputs(outputs) == [] <==> forall u | 0 <= u < |outputs| :: outputs[u].OpReturn?
  {
    if SpendableOutputs(outputs) == [] {
      forall u | 0 <= u < |outputs| ensures outputs[u].OpReturn? {
        SpendableMembers(outputs, u);
      }
    } else {
      assert SpendableOutputs(outputs)[0] in SpendableOutputs(outputs);
    }
  }

  // ---------------------------------------------------------------------------
  // Implicit transfer
  // ---------------------------------------------------------------------------

  predicate MovesImplicitly(tx: Tx, p: Option<Payload.Brc721Payload>) {
    p.None? || p.value.RegisterCollection?
  }

  lemma {:induction false} SpendableAscending(outputs: seq<Script>)
    ensures forall i, j | 0 <= i < j < |SpendableOutputs(outputs)| ::
              SpendableOutputs(outputs)[i] < SpendableOutputs(outputs)[j]
  {
    if outputs != [] {
      var before := SpendableOutputs(outputs[..|outputs| - 1]);
      SpendableAscending(outputs[..|outputs| - 1]);
      assert forall i | 0 <= i < |before| :: before[i] in before;
    }
  }

  /** An output that is not OP_RETURN is a spendable output, and no other is. */
  lemma {:induction false} SpendableMembers(outputs: seq<Script>, v: nat)
    ensures v in SpendableOutputs(outputs) <==> v < |outputs| && outputs[v].Spendable?
    decreases |outputs|
  {
    if outputs != [] {
      SpendableMembers(outputs[..|outputs| - 1], v);
    }
  }

  /** How many of these outputs are not OP_RETURN. */
  function CountPayable(outputs: seq<Script>): nat {
    if outputs == [] then 0
    else CountPayable(outputs[..|outputs| - 1]) + if outputs[|outputs| - 1].Spendable? then 1 else 0
  }

  lemma {:induction false} PayableCount(outputs: seq<Script>)
    ensures |SpendableOutputs(outputs)| == CountPayable(outputs)
    decreases |outputs|
  {
    if outputs != [] {
      PayableCount(outputs[..|outputs| - 1]);
    }
  }

  /** A spendable output stands in the list behind the spendable outputs before it. */
  lemma {:induction false} PayableIndex(outputs: seq<Script>, v: nat)
    requires v < |outputs| && outputs[v].Spendable?
    ensures CountPayable(outputs[..v]) < |SpendableOutputs(outputs)|
    ensures SpendableOutputs(outputs)[CountPayable(outputs[..v])] == v
    decreases |outputs|
  {
    var n := |outputs| - 1;
    if v < n {
      assert outputs[..n][..v] == outputs[..v];
      PayableIndex(outputs[..n], v);
    } else {
      PayableCount(outputs[..n]);
    }
  }

  /** No output after `v` can be spent. */
  predicate LastPayable(outputs: seq<Script>, v: nat) {
    forall u | v < u < |outputs| :: outputs[u].OpReturn?
  }

  lemma LastPayableIndex(outputs: seq<Script>, v: nat)
    requires v < |outputs| && outputs[v].Spendable?
    ensures LastPayable(outputs, v) <==> CountPayable(outputs[..v]) + 1 == |SpendableOutputs(outputs)|
  {
    var vouts, k := SpendableOutputs(outputs), CountPayable(outputs[..v]);
    PayableIndex(outputs, v);
    SpendableAscending(outputs);
    if k + 1 < |vouts| {
      assert vouts[k + 1] in vouts && vouts[k] < vouts[k + 1];
    } else {
      assert forall i | 0 <= i < |vouts| :: vouts[i] <= v;
      forall u | v < u < |outputs| ensures outputs[u].OpReturn? {
        SpendableMembers(outputs, u);
      }
    }
  }

  /** The token inputs that go to spendable output `v`: input k, or all from k on when no later output can be spent. */
  function DueAt(inputs: seq<TokenInput>, outputs: seq<Script>, v: nat): seq<TokenInput>
    requires v < |outputs|
  {
    var k := CountPayable(outputs[..v]);
    if k >= |inputs| then [] else if LastPayable(outputs, v) then inputs[k..] else [inputs[k]]
  }

  lemma DueIsDueAt(inputs: seq<TokenInput>, outputs: seq<Script>, v: nat)
    requires v < |outputs| && outputs[v].Spendable?
    ensures CountPayable(outputs[..v]) < |SpendableOutputs(outputs)|
    ensures SpendableOutputs(outputs)[CountPayable(outputs[..v])] == v
    ensures Due(inputs, CountPayable(outputs[..v]), |SpendableOutputs(outputs)|) == DueAt(inputs, outputs, v)
  {
    PayableIndex(outputs, v);
    LastPayableIndex(outputs, v);
  }

  lemma NothingPayable(outputs: seq<Script>)
    requires forall v | 0 <= v < |outputs| :: outputs[v].OpReturn?
    ensures SpendableOutputs(outputs) == []
  {
    if SpendableOutputs(outputs) != [] {
      assert SpendableOutputs(outputs)[0] in SpendableOutputs(outputs);
    }
  }

  lemma TransfersPush(node: Node, tx: Tx, inputs: seq<TokenInput>, v: nat)
    requires inputs != []
    ensures var n := |inputs| - 1;
            WrittenAt(Transfers(node, tx, inputs), v)
            == WrittenAt(Transfers(node, tx, inputs[..n]), v)
               + if Destination(tx, n) == v then Coalesce(inputs[n].ranges) else []
  {
    var n := |inputs| - 1;
    assert Transfers(node, tx, inputs)[..n] == Transfers(node, tx, inputs[..n]);
  }

  /** Each input is coalesced by itself; ranges of different inputs are never joined. */
  function CoalescedEach(inputs: seq<TokenInput>): seq<Slice> {
    if inputs == [] then [] else CoalescedEach(inputs[..|inputs| - 1]) + Coalesce(inputs[|inputs| - 1].ranges)
  }

  lemma {:induction false} BurnWrites(node: Node, tx: Tx, inputs: seq<TokenInput>)
    requires SpendableOutputs(tx.outputs) == []
    ensures WrittenAt(Transfers(node, tx, inputs), 0) == CoalescedEach(inputs)
  {
    if inputs != [] {
      BurnWrites(node, tx, inputs[..|inputs| - 1]);
      TransfersPush(node, tx, inputs, 0);
    }
  }

  /** What the k-th spendable output is due: the k-th input, and for the last one all that remain. */
  function Due(inputs: seq<TokenInput>, k: nat, n: nat): seq<TokenInput> {
    if k >= |inputs| then [] else if k + 1 < n then [inputs[k]] else inputs[k..]
  }

  lemma DuePush(inputs: seq<TokenInput>, k: nat, n: nat)
    requires inputs != [] && k < n
    ensures var j := |inputs| - 1;
            Due(inputs, k, n) == Due(inputs[..j], k, n) + if Min(j, n - 1) == k then [inputs[j]] else []
  {
  }

  lemma DestinationIs(tx: Tx, j: nat, k: nat)
    requires k < |SpendableOutputs(tx.outputs)|
    ensures Destination(tx, j) == SpendableOutputs(tx.outputs)[k]
      <==> Min(j, |SpendableOutputs(tx.outputs)| - 1) == k
  {
    SpendableAscending(tx.outputs);
  }

  lemma CoalescedEachPush(inputs: seq<TokenInput>, input: TokenInput)
    ensures CoalescedEach(inputs + [input]) == CoalescedEach(inputs) + Coalesce(input.ranges)
  {
    assert (inputs + [input])[..|inputs|] == inputs;
  }

  lemma {:induction false} MoveWrites(node: Node, tx: Tx, inputs: seq<TokenInput>, k: nat)
    requires k < |SpendableOutputs(tx.outputs)|
    ensures WrittenAt(Transfers(node, tx, inputs), SpendableOutputs(tx.outputs)[k])
         == CoalescedEach(Due(inputs, k, |SpendableOutputs(tx.outputs)|))
  {
    if inputs != [] {
      var vouts := SpendableOutputs(tx.outputs);
      var j := |inputs| - 1;
      MoveWrites(node, tx, inputs[..j], k);
      TransfersPush(node, tx, inputs, vouts[k]);
      DestinationIs(tx, j, k);
      DuePush(inputs, k, |vouts|);
      var before := Due(inputs[..j], k, |vouts|);
      CoalescedEachPush(before, inputs[j]);
      assert before + [] == before && CoalescedEach(before) + [] == CoalescedEach(before);
    }
  }

  lemma {:induction false} CoalescedEachTokens(inputs: seq<TokenInput>)
    requires forall j | 0 <= j < |inputs| :: WfSlices(inputs[j].ranges)
    ensures Flatten(CoalescedEach(inputs)) == Flatten(AllRanges(inputs))
  {
    if inputs != [] {
      var n := |inputs| - 1;
      CoalescedEachTokens(inputs[..n]);
      CoalesceCanonical(inputs[n].ranges, inputs[n].ranges);
      FlattenConcat(CoalescedEach(inputs[..n]), Coalesce(inputs[n].ranges));
      FlattenConcat(AllRanges(inputs[..n]), inputs[n].ranges);
    }
  }

  lemma MovedRanges(t: Tables, node: Node, tx: Tx, at: Position, k: nat)
    requires Inv(t) && FreshTxid(t, tx.txid) && StepTx(t, node, tx, at).Ok?
    requires DisjointInputs(t, tx.inputs) && MovesImplicitly(tx, TxPayload(tx))
    requires k < |SpendableOutputs(tx.outputs)|
    ensures UnspentRanges(StepTx(t, node, tx, at).value, OutPoint(tx.txid, SpendableOutputs(tx.outputs)[k]))
         == CoalescedEach(Due(TokenInputs(t, tx.inputs), k, |SpendableOutputs(tx.outputs)|))
  {
    ImplicitPlan(t, node, tx);
    NothingRegistered(t, node, tx);
    ExactAtOutput(t, node, tx, at, SpendableOutputs(tx.outputs)[k]);
    MoveWrites(node, tx, TokenInputs(t, tx.inputs), k);
  }

  lemma DueTokens(t: Tables, ins: seq<OutPoint>, k: nat, n: nat)
    requires RangesSound(t)
    ensures var due := Due(TokenInputs(t, ins), k, n); Flatten(CoalescedEach(due)) == Flatten(AllRanges(due))
  {
    InputsWf(t, ins);
    CoalescedEachTokens(Due(TokenInputs(t, ins), k, n));
  }

  /**
    Implicit transfer, with disjoint inputs: with k spendable outputs before it, a spendable output receives
    the k-th token input whole, and all later ones too when no output after it can be spent. It stores their
    tokens in order. Plain inputs are not counted.
    */
  lemma ImplicitTransfer(t: Tables, node: Node, tx: Tx, at: Position, v: nat)
    requires Inv(t) && FreshTxid(t, tx.txid) && StepTx(t, node, tx, at).Ok?
    requires DisjointInputs(t, tx.inputs) && MovesImplicitly(tx, TxPayload(tx))
    requires v < |tx.outputs| && tx.outputs[v].Spendable?
    ensures var due := DueAt(TokenInputs(t, tx.inputs), tx.outputs, v);
            var op := OutPoint(tx.txid, v);
            var t' := StepTx(t, node, tx, at).value;
            UnspentRanges(t', op) == CoalescedEach(due) && TokensAt(t', op) == Flatten(AllRanges(due))
  {
    var k := CountPayable(tx.outputs[..v]);
    DueIsDueAt(TokenInputs(t, tx.inputs), tx.outputs, v);
    MovedRanges(t, node, tx, at, k);
    hide Inv, StepTx, DisjointInputs, MovesImplicitly, SpendableOutputs, Due, DueAt;
    assert RangesSound(t) by { SoundOf(t); }
    DueTokens(t, tx.inputs, k, |SpendableOutputs(tx.outputs)|);
  }

  lemma SoundOf(t: Tables)
    requires Inv(t)
    ensures RangesSound(t)
  {
  }

  lemma ImplicitPlan(t: Tables, node: Node, tx: Tx)
    requires PlanTx(t, node, tx).Ok? && MovesImplicitly(tx, TxPayload(tx))
    ensures PlanTx(t, node, tx).value.writes == Transfers(node, tx, TokenInputs(t, tx.inputs))
    ensures RegisterPart(t, node, tx) == []
  {
  }

  /** When every output is an OP_RETURN everything is burnt at output 0, under the null owner. */
  lemma BurnTransfer(t: Tables, node: Node, tx: Tx, at: Position)
    requires Inv(t) && FreshTxid(t, tx.txid) && StepTx(t, node, tx, at).Ok?
    requires DisjointInputs(t, tx.inputs) && MovesImplicitly(tx, TxPayload(tx))
    requires forall v | 0 <= v < |tx.outputs| :: tx.outputs[v].OpReturn?
    ensures var t' := StepTx(t, node, tx, at).value;
            TokensAt(t', OutPoint(tx.txid, 0)) == Flatten(AllRanges(TokenInputs(t, tx.inputs)))
    ensures forall k | k in StepTx(t, node, tx, at).value.utxos && k.outpoint == OutPoint(tx.txid, 0) ::
              StepTx(t, node, tx, at).value.utxos[k].owner == ZERO_H160
  {
    var inputs := TokenInputs(t, tx.inputs);
    NothingPayable(tx.outputs);
    ImplicitPlan(t, node, tx);
    NothingRegistered(t, node, tx);
    ExactAtOutput(t, node, tx, at, 0);
    BurnWrites(node, tx, inputs);
    InputsWf(t, tx.inputs);
    CoalescedEachTokens(inputs);
    forall k | k in StepTx(t, node, tx, at).value.utxos && k.outpoint == OutPoint(tx.txid, 0)
      ensures StepTx(t, node, tx, at).value.utxos[k].owner == ZERO_H160
    {
      OwnersRecorded(t, node, tx, at, k);
    }
  }

  /** Which tokens reach a spendable output, whoever else holds them and however often the inputs do. */
  lemma TransferReaches(t: Tables, node: Node, tx: Tx, at: Position, v: nat, x: Token)
    requires Inv(t) && FreshTxid(t, tx.txid) && StepTx(t, node, tx, at).Ok?
    requires MovesImplicitly(tx, TxPayload(tx)) && v < |tx.outputs| && tx.outputs[v].Spendable?
    ensures HeldAt(StepTx(t, node, tx, at).value, OutPoint(tx.txid, v), x)
      <==> x in Flatten(AllRanges(DueAt(TokenInputs(t, tx.inputs), tx.outputs, v)))
  {
    var k := CountPayable(tx.outputs[..v]);
    DueIsDueAt(TokenInputs(t, tx.inputs), tx.outputs, v);
    ImplicitPlan(t, node, tx);
    HeldAtOutput(t, node, tx, at, v, x);
    MoveWrites(node, tx, TokenInputs(t, tx.inputs), k);
    hide Inv, StepTx, PlanTx, MovesImplicitly, SpendableOutputs, Due, DueAt;
    assert RangesSound(t) by { SoundOf(t); }
    DueTokens(t, tx.inputs, k, |SpendableOutputs(tx.outputs)|);
  }

  /** Which tokens are burnt at output 0. */
  lemma BurnReaches(t: Tables, node: Node, tx: Tx, at: Position, x: Token)
    requires Inv(t) && FreshTxid(t, tx.txid) && StepTx(t, node, tx, at).Ok?
    requires MovesImplicitly(tx, TxPayload(tx)) && forall v | 0 <= v < |tx.outputs| :: tx.outputs[v].OpReturn?
    ensures HeldAt(StepTx(t, node, tx, at).value, OutPoint(tx.txid, 0), x)
      <==> x in Flatten(AllRanges(TokenInputs(t, tx.inputs)))
  {
    NothingPayable(tx.outputs);
    ImplicitPlan(t, node, tx);
    HeldAtOutput(t, node, tx, at, 0, x);
    BurnWrites(node, tx, TokenInputs(t, tx.inputs));
    InputsWf(t, tx.inputs);
    CoalescedEachTokens(TokenInputs(t, tx.inputs));
  }

  // ---------------------------------------------------------------------------
  // Mix
  // ---------------------------------------------------------------------------

  lemma NoMixWrites(node: Node, tx: Tx, parts: seq<seq<Slice>>, v: nat)
    requires |parts| < |tx.outputs|
    ensures WrittenAt(MixDigest.MixWrites(node, tx, parts)[..0], v) == []
  {
  }

  lemma {:induction false} MixWrittenAt(node: Node, tx: Tx, parts: seq<seq<Slice>>, v: nat, m: nat)
    requires m <= |parts| < |tx.outputs|
    ensures m <= |MixDigest.MixWrites(node, tx, parts)|
    ensures WrittenAt(MixDigest.MixWrites(node, tx, parts)[..m], v) == if 1 <= v <= m then parts[v - 1] else []
    decreases m
  {
    hide *;
    if m == 0 {
      NoMixWrites(node, tx, parts, v);
    } else {
      MixWrittenAt(node, tx, parts, v, m - 1);
      var w := NextMixWrite(node, tx, parts, m - 1);
      WrittenAtPush(MixDigest.MixWrites(node, tx, parts)[..m - 1], w, v);
      assert [] + parts[m - 1] == parts[m - 1];
    }
  }

  lemma NextMixWrite(node: Node, tx: Tx, parts: seq<seq<Slice>>, k: nat) returns (w: Write)
    requires k < |parts| < |tx.outputs|
    ensures |MixDigest.MixWrites(node, tx, parts)| == |parts|
    ensures MixDigest.MixWrites(node, tx, parts)[..k + 1] == MixDigest.MixWrites(node, tx, parts)[..k] + [w]
    ensures w.vout == k + 1 && w.slices == parts[k]
  {
    w := MixDigest.MixWrites(node, tx, parts)[k];
  }

  /** The input tokens of a mix that output `v` is to receive. */
  ghost function Share(t: Tables, ins: seq<OutPoint>, d: MixData, v: nat): seq<Token> {
    if 1 <= v <= |d.outputRanges| then Routed(Flatten(AllRanges(TokenInputs(t, ins))), d, v - 1) else []
  }

  lemma MixPlanIs(t: Tables, node: Node, tx: Tx, d: MixData) returns (parts: seq<seq<Slice>>)
    requires PlanTx(t, node, tx).Ok? && TxPayload(tx) == Some(Payload.Mix(d)) && !RejectedMix(t, tx)
    ensures MixDigest.MixOutcome(d, tx, TokenInputs(t, tx.inputs), TokensFirst(t, tx.inputs)) == Ok(Some(parts))
    ensures |parts| == |d.outputRanges| < |tx.outputs|
    ensures PlanTx(t, node, tx).value.writes == MixDigest.MixWrites(node, tx, parts)
    ensures RegisterPart(t, node, tx) == []
  {
    parts := MixDigest.MixOutcome(d, tx, TokenInputs(t, tx.inputs), TokensFirst(t, tx.inputs)).value.value;
  }

  lemma PartIsShare(t: Tables, tx: Tx, d: MixData, parts: seq<seq<Slice>>, v: nat)
    requires MixDigest.MixOutcome(d, tx, TokenInputs(t, tx.inputs), TokensFirst(t, tx.inputs)) == Ok(Some(parts))
    ensures |parts| == |d.outputRanges|
    ensures Compress(Share(t, tx.inputs, d, v)) == if 1 <= v <= |parts| then parts[v - 1] else []
  {
    hide Routed, AllRanges, Flatten, TokenInputs, TokensFirst, MixDigest.MixWellPlaced, MixDigest.Countable;
  }

  lemma MixPlan(t: Tables, node: Node, tx: Tx, d: MixData, v: nat)
    requires PlanTx(t, node, tx).Ok? && TxPayload(tx) == Some(Payload.Mix(d)) && !RejectedMix(t, tx)
    ensures RegisterPart(t, node, tx) == []
    ensures WrittenAt(PlanTx(t, node, tx).value.writes, v) == Compress(Share(t, tx.inputs, d, v))
  {
    hide *;
    var parts := MixPlanIs(t, node, tx, d);
    PartIsShare(t, tx, d, parts, v);
    AllMixWrites(node, tx, parts, v);
  }

  lemma AllMixWrites(node: Node, tx: Tx, parts: seq<seq<Slice>>, v: nat)
    requires |parts| < |tx.outputs|
    ensures WrittenAt(MixDigest.MixWrites(node, tx, parts), v) == if 1 <= v <= |parts| then parts[v - 1] else []
  {
    hide WrittenAt;
    var ws := MixDigest.MixWrites(node, tx, parts);
    MixWrittenAt(node, tx, parts, v, |parts|);
    assert ws[..|parts|] == ws;
  }

  lemma ShareFlattens(t: Tables, ins: seq<OutPoint>, d: MixData, v: nat)
    requires RangesSound(t)
    ensures Flatten(Compress(Share(t, ins, d, v))) == Share(t, ins, d, v)
  {
    hide Flatten, Compress, AllRanges, TokenInputs, Routed, Storable, RangesSound;
    if 1 <= v <= |d.outputRanges| {
      InputsStorable(t, ins);
      RoutedStorable(t, AllRanges(TokenInputs(t, ins)), d, v - 1);
    } else {
      CompressFlatten([]);
    }
  }

  /**
    An accepted mix, with disjoint inputs: output k+1 holds exactly the input tokens routed to entry k,
    in input order, coalesced; and no other output holds any.
    */
  lemma MixDelivers(t: Tables, node: Node, tx: Tx, at: Position, d: MixData, v: nat)
    requires Inv(t) && FreshTxid(t, tx.txid) && StepTx(t, node, tx, at).Ok?
    requires DisjointInputs(t, tx.inputs)
    requires TxPayload(tx) == Some(Payload.Mix(d)) && !RejectedMix(t, tx)
    ensures var t' := StepTx(t, node, tx, at).value;
            var op := OutPoint(tx.txid, v);
            && UnspentRanges(t', op) == Compress(Share(t, tx.inputs, d, v))
            && TokensAt(t', op) == Share(t, tx.inputs, d, v)
  {
    MixPlan(t, node, tx, d, v);
    NothingRegistered(t, node, tx);
    ExactAtOutput(t, node, tx, at, v);
    ShareFlattens(t, tx.inputs, d, v);
  }

  /** Which tokens an accepted mix gives to an output, whoever else holds them. */
  lemma MixReaches(t: Tables, node: Node, tx: Tx, at: Position, d: MixData, v: nat, x: Token)
    requires Inv(t) && FreshTxid(t, tx.txid) && StepTx(t, node, tx, at).Ok?
    requires TxPayload(tx) == Some(Payload.Mix(d)) && !RejectedMix(t, tx)
    ensures HeldAt(StepTx(t, node, tx, at).value, OutPoint(tx.txid, v), x) <==> x in Share(t, tx.inputs, d, v)
  {
    MixPlan(t, node, tx, d, v);
    HeldAtOutput(t, node, tx, at, v, x);
    ShareFlattens(t, tx.inputs, d, v);
  }

  // ---------------------------------------------------------------------------
  // How many tokens each mix output gets
  // ---------------------------------------------------------------------------

  function Clipped(r: IndexRange, n: nat): nat
    requires r.start <= r.end
  {
    Min(r.end, n) - Min(r.start, n)
  }

  function ClippedTotal(rs: seq<IndexRange>, n: nat): nat
    requires WfRanges(rs)
  {
    if rs == [] then 0 else ClippedTotal(rs[..|rs| - 1], n) + Clipped(rs[|rs| - 1], n)
  }

  function RangeTotal(rs: seq<IndexRange>): nat
    requires WfRanges(rs)
  {
    if rs == [] then 0 else RangeTotal(rs[..|rs| - 1]) + (rs[|rs| - 1].end - rs[|rs| - 1].start)
  }

  lemma {:induction false} ClippedStep(rs: seq<IndexRange>, n: nat)
    requires WfRanges(rs) && NoSharedIndex(rs, Itself, 0)
    ensures ClippedTotal(rs, n + 1)
         == ClippedTotal(rs, n) + if exists i :: 0 <= i < |rs| && Contains(rs[i], 0, n) then 1 else 0
  {
    if rs != [] {
      var m := |rs| - 1;
      ClippedStep(rs[..m], n);
      if i :| 0 <= i < m && Contains(rs[..m][i], 0, n) {
        assert Contains(rs[i], 0, n) && !(Contains(Itself(rs[i]), 0, n) && Contains(Itself(rs[m]), 0, n));
      }
      if i :| 0 <= i < |rs| && Contains(rs[i], 0, n) {
        assert i < m ==> Contains(rs[..m][i], 0, n);
      }
    }
  }

  lemma {:induction false} ClippedWhole(rs: seq<IndexRange>, n: nat)
    requires WfRanges(rs) && forall i | 0 <= i < |rs| :: rs[i].end <= n
    ensures ClippedTotal(rs, n) == RangeTotal(rs)
  {
    if rs != [] {
      ClippedWhole(rs[..|rs| - 1], n);
    }
  }

  lemma OwnRangesShareNothing(d: MixData, k: nat)
    requires ValidBasic(d) && k < |d.outputRanges|
    ensures NoSharedIndex(d.outputRanges[k], Itself, 0)
  {
    var rs := d.outputRanges[k];
    if k != d.complementIndex {
      forall i, j, x: int | 0 <= i < j < |rs|
        ensures !(Contains(Itself(rs[i]), 0, x) && Contains(Itself(rs[j]), 0, x))
      {
        TwoOwnRanges(d, k, i, j, x);
      }
    }
  }

  lemma TwoOwnRanges(d: MixData, k: nat, i: nat, j: nat, x: int)
    requires NoSharedIndex(Explicit(d), SpanOf, 0)
    requires k < |d.outputRanges| && k != d.complementIndex && i < j < |d.outputRanges[k]|
    ensures !(Contains(d.outputRanges[k][i], 0, x) && Contains(d.outputRanges[k][j], 0, x))
  {
    var es, a := Explicit(d), |ExplicitUpTo(d, k)|;
    ExplicitAt(d, k, i, |d.outputRanges|);
    ExplicitAt(d, k, j, |d.outputRanges|);
    assert !(Contains(SpanOf(es[a + i]), 0, x) && Contains(SpanOf(es[a + j]), 0, x));
  }

  lemma {:induction false} ExplicitAt(d: MixData, k: nat, i: nat, n: nat)
    requires k < n <= |d.outputRanges| && k != d.complementIndex && i < |d.outputRanges[k]|
    ensures |ExplicitUpTo(d, k)| + i < |ExplicitUpTo(d, n)|
    ensures ExplicitUpTo(d, n)[|ExplicitUpTo(d, k)| + i]
         == ExplicitRange(d.outputRanges[k][i].start, d.outputRanges[k][i].end, k)
    decreases n
  {
    if k < n - 1 {
      ExplicitAt(d, k, i, n - 1);
    }
  }

  lemma {:induction false} RoutedLength(ts: seq<Token>, d: MixData, k: nat)
    requires ValidBasic(d) && k < |d.outputRanges| && k != d.complementIndex
    ensures |Routed(ts, d, k)| == ClippedTotal(d.outputRanges[k], |ts|)
  {
    var rs := d.outputRanges[k];
    if ts == [] {
      ClippedAtZero(rs);
    } else {
      var n := |ts| - 1;
      RoutedLength(ts[..n], d, k);
      OwnRangesShareNothing(d, k);
      ClippedStep(rs, n);
      assert Asks(d, k, n) <==> exists i :: 0 <= i < |rs| && Contains(rs[i], 0, n) by {
        if r :| r in rs && Contains(r, 0, n) {
          var i :| 0 <= i < |rs| && rs[i] == r;
          assert Contains(rs[i], 0, n);
        }
        if i :| 0 <= i < |rs| && Contains(rs[i], 0, n) {
          assert rs[i] in rs;
        }
      }
    }
  }

  lemma {:induction false} ClippedAtZero(rs: seq<IndexRange>)
    requires WfRanges(rs)
    ensures ClippedTotal(rs, 0) == 0
  {
    if rs != [] {
      ClippedAtZero(rs[..|rs| - 1]);
    }
  }

  /** An explicit output of an accepted mix receives as many tokens as its ranges have indices. */
  lemma ExplicitShare(ts: seq<Token>, d: MixData, k: nat)
    requires ValidBasic(d) && k < |d.outputRanges| && k != d.complementIndex
    requires ValidateTokenCount(d, |ts|).Ok?
    ensures |Routed(ts, d, k)| == RangeTotal(d.outputRanges[k])
  {
    RoutedLength(ts, d, k);
    TokenCountMeaning(d, |ts|);
    var rs := d.outputRanges[k];
    forall i | 0 <= i < |rs| ensures rs[i].end <= |ts| {
      var e := ExplicitRange(rs[i].start, rs[i].end, k);
      ExplicitUpToMembers(d, |d.outputRanges|, e);
      assert SpanOf(e) == rs[i];
    }
    ClippedWhole(rs, |ts|);
  }

  ghost function RoutedTotal(ts: seq<Token>, d: MixData, m: nat): nat {
    if m == 0 then 0 else RoutedTotal(ts, d, m - 1) + |Routed(ts, d, m - 1)|
  }

  lemma {:induction false} RoutedTotalStep(ts: seq<Token>, t: Token, d: MixData, m: nat, r: nat)
    requires m <= |d.outputRanges| && AllTo(d, |ts|, |ts| + 1, r)
    ensures RoutedTotal(ts + [t], d, m) == RoutedTotal(ts, d, m) + if r < m then 1 else 0
  {
    if m > 0 {
      RoutedTotalStep(ts, t, d, m - 1, r);
      assert (ts + [t])[..|ts|] == ts;
      assert Receives(d, m - 1, |ts|) <==> m - 1 == r;
    }
  }

  /** The shares of all outputs add up to the inputs, so the complement receives the rest. */
  lemma {:induction false} SharesAddUp(ts: seq<Token>, d: MixData)
    requires ValidBasic(d)
    ensures RoutedTotal(ts, d, |d.outputRanges|) == |ts|
  {
    var m := |d.outputRanges|;
    if ts == [] {
      NothingRouted(d, m);
    } else {
      hide Routed, RoutedTotal;
      var init, t := ts[..|ts| - 1], ts[|ts| - 1];
      var r := Receiver(d, |init|);
      OneReceiver(d, |init|, r);
      SharesAddUp(init, d);
      RoutedTotalStep(init, t, d, m, r);
      assert ts == init + [t];
    }
  }

  /** How many indices the explicit outputs among the first `m` ask for. */
  function AskedTotal(d: MixData, m: nat): nat
    requires m <= |d.outputRanges| && forall k | 0 <= k < m :: WfRanges(d.outputRanges[k])
  {
    if m == 0 then 0
    else AskedTotal(d, m - 1) + if m - 1 == d.complementIndex then 0 else RangeTotal(d.outputRanges[m - 1])
  }

  lemma AskedTotalDefined(d: MixData)
    requires ValidBasic(d)
    ensures forall k | 0 <= k < |d.outputRanges| :: WfRanges(d.outputRanges[k])
  {
  }

  lemma {:induction false} RoutedTotalAsked(ts: seq<Token>, d: MixData, m: nat)
    requires ValidBasic(d) && m <= |d.outputRanges| && ValidateTokenCount(d, |ts|).Ok?
    ensures RoutedTotal(ts, d, m)
         == AskedTotal(d, m) + if d.complementIndex < m then |Routed(ts, d, d.complementIndex)| else 0
    decreases m
  {
    hide ValidBasic, Routed, RangeTotal, ValidateTokenCount, WfRanges;
    AskedTotalDefined(d);
    if m > 0 {
      RoutedTotalAsked(ts, d, m - 1);
      if m - 1 != d.complementIndex {
        ExplicitShare(ts, d, m - 1);
      }
    }
  }

  /** The complement receives what the explicit ranges leave. */
  lemma ComplementShare(ts: seq<Token>, d: MixData)
    requires ValidBasic(d) && ValidateTokenCount(d, |ts|).Ok?
    ensures |Routed(ts, d, d.complementIndex)| == |ts| - AskedTotal(d, |d.outputRanges|)
  {
    SharesAddUp(ts, d);
    RoutedTotalAsked(ts, d, |d.outputRanges|);
  }

  lemma {:induction false} NothingRouted(d: MixData, m: nat)
    ensures RoutedTotal([], d, m) == 0
  {
    if m > 0 {
      NothingRouted(d, m - 1);
    }
  }
}
