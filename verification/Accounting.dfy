/**
  Token accounting: which tokens unspent outpoints hold, before and after a transaction and over
  whole runs.
  */
module Accounting {
  import opened Prelude
  import opened Tokens
  import opened Storage
  import opened TableInvariant
  import opened Transactions
  import opened MixPayload
  import opened MixRouting
  import opened Writes
  import opened Parser
  import opened Ledger
  import Payload
  import MixDigest
  import RegisterDigest

  /** The tokens at an outpoint, in stored order. */
  function TokensAt(t: Tables, op: OutPoint): seq<Token> {
    Flatten(UnspentRanges(t, op))
  }

  predicate HeldAt(t: Tables, op: OutPoint, x: Token) {
    x in TokensAt(t, op)
  }

  /** Some unspent outpoint holds the token. */
  ghost predicate Held(t: Tables, x: Token) {
    exists op :: HeldAt(t, op, x)
  }

  ghost predicate InWrites(ws: seq<Write>, x: Token) {
    exists w :: w in ws && x in Flatten(w.slices)
  }

  /** What the transaction's register-ownership message writes; nothing for any other message. */
  ghost function RegisterPart(t: Tables, node: Node, tx: Tx): seq<Write> {
    match TxPayload(tx)
    case Some(RegisterOwnership(d)) =>
      PayloadValid(tx);
      if |d.groups| < |tx.outputs| && RegisterDigest.RegisterOutcome(t.collections, node, tx, d).Ok?
      then RegisterDigest.RegisterOutcome(t.collections, node, tx, d).value
      else []
    case _ => []
  }

  ghost predicate Registers(t: Tables, node: Node, tx: Tx, x: Token) {
    InWrites(RegisterPart(t, node, tx), x)
  }

  /** A mix message that decodes but fails one of the indexer's checks. */
  ghost predicate RejectedMix(t: Tables, tx: Tx) {
    match TxPayload(tx)
    case Some(Mix(d)) =>
      MixDigest.MixOutcome(d, tx, TokenInputs(t, tx.inputs), TokensFirst(t, tx.inputs)) == Ok(None)
    case _ => false
  }

  // ---------------------------------------------------------------------------
  // Tokens of writes
  // ---------------------------------------------------------------------------

  lemma {:induction false} AppendNewTokens(xs: seq<Slice>, ys: seq<Slice>, x: Token)
    ensures x in Flatten(AppendNew(xs, ys)) <==> x in Flatten(xs) || x in Flatten(ys)
  {
    if ys != [] {
      var n := |ys| - 1;
      var before := AppendNew(xs, ys[..n]);
      AppendNewTokens(xs, ys[..n], x);
      FlattenPush(before, ys[n]);
      if ys[n] in before {
        RunCovers(ys[n], x);
        FlattenCovers(before, x);
      }
    }
  }

  lemma {:induction false} WrittenAtTokens(ws: seq<Write>, v: nat, x: Token)
    ensures x in Flatten(WrittenAt(ws, v)) <==> exists w :: w in ws && w.vout == v && x in Flatten(w.slices)
  {
    if ws != [] {
      var n := |ws| - 1;
      WrittenAtTokens(ws[..n], v, x);
      assert ws == ws[..n] + [ws[n]];
      FlattenConcat(WrittenAt(ws[..n], v), ws[n].slices);
      assert WrittenAt(ws[..n], v) + [] == WrittenAt(ws[..n], v);
    }
  }

  ghost predicate InInputs(inputs: seq<TokenInput>, x: Token) {
    exists input :: input in inputs && x in Flatten(input.ranges)
  }

  lemma {:induction false} AllRangesTokens(inputs: seq<TokenInput>, x: Token)
    ensures x in Flatten(AllRanges(inputs)) <==> InInputs(inputs, x)
  {
    if inputs != [] {
      var init, last := inputs[..|inputs| - 1], inputs[|inputs| - 1];
      AllRangesTokens(init, x);
      FlattenConcat(AllRanges(init), last.ranges);
      assert inputs == init + [last];
    }
  }

  /** The token inputs hold exactly what the spent outpoints held. */
  lemma InputTokens(t: Tables, tx: Tx, x: Token)
    ensures x in Flatten(AllRanges(TokenInputs(t, tx.inputs))) <==> exists op :: Spends(tx, op) && HeldAt(t, op, x)
  {
    var inputs := TokenInputs(t, tx.inputs);
    AllRangesTokens(inputs, x);
    if input :| input in inputs && x in Flatten(input.ranges) {
      TokenInputMember(t, tx.inputs, input);
      assert Spends(tx, input.outpoint) && HeldAt(t, input.outpoint, x);
    }
    if op :| Spends(tx, op) && HeldAt(t, op, x) {
      var input := TokenInput(op, UnspentRanges(t, op));
      TokenInputMember(t, tx.inputs, input);
      assert InInputs(inputs, x);
    }
  }

  lemma TransferTokens(t: Tables, node: Node, tx: Tx, x: Token)
    requires RangesSound(t)
    ensures InWrites(Transfers(node, tx, TokenInputs(t, tx.inputs)), x)
      <==> x in Flatten(AllRanges(TokenInputs(t, tx.inputs)))
  {
    var inputs := TokenInputs(t, tx.inputs);
    var ws := Transfers(node, tx, inputs);
    AllRangesTokens(inputs, x);
    forall j | 0 <= j < |inputs| ensures Flatten(ws[j].slices) == Flatten(inputs[j].ranges) {
      assert inputs[j] in inputs;
      InputStorable(t, tx.inputs, inputs[j]);
      TokensOfStorable(t, inputs[j].ranges);
      CoalesceCanonical(inputs[j].ranges, inputs[j].ranges);
    }
    if input :| input in inputs && x in Flatten(input.ranges) {
      var j :| 0 <= j < |inputs| && inputs[j] == input;
      assert ws[j] in ws;
    }
    if w :| w in ws && x in Flatten(w.slices) {
      var j :| 0 <= j < |ws| && ws[j] == w;
      assert inputs[j] in inputs;
    }
  }

  lemma {:induction false} RoutedSomewhere(ts: seq<Token>, d: MixData, x: Token) returns (k: nat)
    requires ValidBasic(d) && x in ts
    ensures k < |d.outputRanges| && x in Routed(ts, d, k)
  {
    var n := |ts| - 1;
    if x == ts[n] {
      k := Receiver(d, n);
    } else {
      k := RoutedSomewhere(ts[..n], d, x);
    }
  }

  /** Every index has a receiver, so routing loses no token and invents none. */
  lemma {:induction false} RoutedCoversAll(ts: seq<Token>, d: MixData, x: Token)
    requires ValidBasic(d)
    ensures x in ts <==> exists k: nat :: k < |d.outputRanges| && x in Routed(ts, d, k)
  {
    if x in ts {
      var k := RoutedSomewhere(ts, d, x);
    }
    if k: nat :| k < |d.outputRanges| && x in Routed(ts, d, k) {
      MixDigest.RoutedMembers(ts, d, k);
    }
  }

  ghost function Receiver(d: MixData, i: nat): (k: nat)
    requires ValidBasic(d)
    ensures k < |d.outputRanges| && Receives(d, k, i)
  {
    if j: nat :| Asks(d, j, i) then
      assert d.outputRanges[j] != [];
      j
    else d.complementIndex
  }

  lemma MixPartTokens(t: Tables, node: Node, tx: Tx, d: MixData, parts: seq<seq<Slice>>, k: nat)
    requires RangesSound(t)
    requires MixDigest.MixOutcome(d, tx, TokenInputs(t, tx.inputs), TokensFirst(t, tx.inputs)) == Ok(Some(parts))
    requires k < |d.outputRanges|
    ensures var w := MixDigest.MixWrites(node, tx, parts)[k];
            w in MixDigest.MixWrites(node, tx, parts) && w.vout == k + 1
            && Flatten(w.slices) == Routed(Flatten(AllRanges(TokenInputs(t, tx.inputs))), d, k)
  {
    InputsStorable(t, tx.inputs);
    RoutedStorable(t, AllRanges(TokenInputs(t, tx.inputs)), d, k);
  }

  lemma MixTokens(
    t: Tables, node: Node, tx: Tx, d: MixData, parts: seq<seq<Slice>>, x: Token)
    requires RangesSound(t) && ValidBasic(d)
    requires MixDigest.MixOutcome(d, tx, TokenInputs(t, tx.inputs), TokensFirst(t, tx.inputs)) == Ok(Some(parts))
    ensures InWrites(MixDigest.MixWrites(node, tx, parts), x)
      <==> x in Flatten(AllRanges(TokenInputs(t, tx.inputs)))
  {
    var ts := Flatten(AllRanges(TokenInputs(t, tx.inputs)));
    var ws := MixDigest.MixWrites(node, tx, parts);
    assert |ws| == |d.outputRanges|;
    hide Routed, AllRanges, Flatten, TokenInputs, ValidBasic, RangesSound, MixDigest.MixOutcome, MixDigest.MixWrites;
    RoutedCoversAll(ts, d, x);
    if k: nat :| k < |d.outputRanges| && x in Routed(ts, d, k) {
      MixPartTokens(t, node, tx, d, parts, k);
      assert ws[k] in ws && x in Flatten(ws[k].slices);
    }
    if w :| w in ws && x in Flatten(w.slices) {
      var k :| 0 <= k < |ws| && ws[k] == w;
      MixPartTokens(t, node, tx, d, parts, k);
      assert x in Routed(ts, d, k);
    }
  }

  lemma ConcatTokens(ws: seq<Write>, vs: seq<Write>, x: Token)
    ensures InWrites(ws + vs, x) <==> InWrites(ws, x) || InWrites(vs, x)
  {
    if w :| w in ws && x in Flatten(w.slices) { assert w in ws + vs; }
    if w :| w in vs && x in Flatten(w.slices) { assert w in ws + vs; }
  }

  lemma MixPlanTokens(t: Tables, node: Node, tx: Tx, d: MixData, x: Token)
    requires RangesSound(t) && PlanTx(t, node, tx).Ok? && TxPayload(tx) == Some(Payload.Mix(d))
    ensures InWrites(PlanTx(t, node, tx).value.writes, x)
      <==> !RejectedMix(t, tx) && x in Flatten(AllRanges(TokenInputs(t, tx.inputs)))
  {
    PayloadValid(tx);
    var outcome := MixDigest.MixOutcome(d, tx, TokenInputs(t, tx.inputs), TokensFirst(t, tx.inputs)).value;
    if outcome.Some? {
      MixTokens(t, node, tx, d, outcome.value, x);
    }
  }

  lemma OtherPlanTokens(t: Tables, node: Node, tx: Tx, x: Token)
    requires RangesSound(t) && PlanTx(t, node, tx).Ok?
    requires TxPayload(tx).Some? ==> !TxPayload(tx).value.Mix?
    ensures InWrites(PlanTx(t, node, tx).value.writes, x)
      <==> x in Flatten(AllRanges(TokenInputs(t, tx.inputs))) || Registers(t, node, tx, x)
  {
    TransferTokens(t, node, tx, x);
    ConcatTokens(RegisterPart(t, node, tx), Transfers(node, tx, TokenInputs(t, tx.inputs)), x);
  }

  /** What a plan writes: the tokens of the inputs and those registered; nothing for a rejected mix. */
  lemma PlanTokens(t: Tables, node: Node, tx: Tx, x: Token)
    requires RangesSound(t) && PlanTx(t, node, tx).Ok?
    ensures InWrites(PlanTx(t, node, tx).value.writes, x)
      <==> !RejectedMix(t, tx) && ((exists op :: Spends(tx, op) && HeldAt(t, op, x)) || Registers(t, node, tx, x))
  {
    InputTokens(t, tx, x);
    if TxPayload(tx).Some? && TxPayload(tx).value.Mix? {
      MixPlanTokens(t, node, tx, TxPayload(tx).value.mix, x);
    } else {
      OtherPlanTokens(t, node, tx, x);
    }
  }

  // ---------------------------------------------------------------------------
  // One transaction
  // ---------------------------------------------------------------------------

  /** Where a token can be found after a transaction. */
  lemma HeldAfter(t: Tables, node: Node, tx: Tx, at: Position, x: Token)
    requires Inv(t) && FreshTxid(t, tx.txid) && StepTx(t, node, tx, at).Ok?
    ensures Held(StepTx(t, node, tx, at).value, x)
      <==> InWrites(PlanTx(t, node, tx).value.writes, x) || exists op :: !Spends(tx, op) && HeldAt(t, op, x)
  {
    var t' := StepTx(t, node, tx, at).value;
    var ws := PlanTx(t, node, tx).value.writes;
    if op :| HeldAt(t', op, x) {
      StepEffect(t, node, tx, at, op);
      AppendNewTokens([], WrittenAt(ws, op.vout), x);
      WrittenAtTokens(ws, op.vout, x);
    }
    if w :| w in ws && x in Flatten(w.slices) {
      var op := OutPoint(tx.txid, w.vout);
      StepEffect(t, node, tx, at, op);
      AppendNewTokens([], WrittenAt(ws, op.vout), x);
      WrittenAtTokens(ws, op.vout, x);
      assert HeldAt(t', op, x);
    }
    if op :| !Spends(tx, op) && HeldAt(t, op, x) {
      if op.txid == tx.txid {
        FreshHasNothing(t, op);
        assert false;
      } else {
        StepEffect(t, node, tx, at, op);
        assert HeldAt(t', op, x);
      }
    }
  }

  /**
    Conservation: after an indexed transaction the held tokens are the old ones and the registered
    ones, be it an implicit transfer, a burn, a registration or an accepted mix.
    */
  lemma TokensConserved(t: Tables, node: Node, tx: Tx, at: Position, x: Token)
    requires Inv(t) && FreshTxid(t, tx.txid) && StepTx(t, node, tx, at).Ok?
    requires !RejectedMix(t, tx)
    ensures Held(StepTx(t, node, tx, at).value, x) <==> Held(t, x) || Registers(t, node, tx, x)
  {
    HeldAfter(t, node, tx, at, x);
    PlanTokens(t, node, tx, x);
    if op :| HeldAt(t, op, x) {
      assert Spends(tx, op) || !Spends(tx, op);
    }
  }

  /** The exception: a rejected mix writes nothing, so exactly the tokens it did not spend survive. */
  lemma RejectedMixForfeits(t: Tables, node: Node, tx: Tx, at: Position, x: Token)
    requires Inv(t) && FreshTxid(t, tx.txid) && StepTx(t, node, tx, at).Ok?
    requires RejectedMix(t, tx)
    ensures Held(StepTx(t, node, tx, at).value, x) <==> exists op :: !Spends(tx, op) && HeldAt(t, op, x)
  {
    HeldAfter(t, node, tx, at, x);
    PlanTokens(t, node, tx, x);
  }

  // ---------------------------------------------------------------------------
  // Runs
  // ---------------------------------------------------------------------------

  /** Transaction ids are new to the tables and never repeat. */
  predicate FreshRun(t: Tables, txs: seq<TxAt>) {
    && (forall i | 0 <= i < |txs| :: FreshTxid(t, txs[i].tx.txid))
    && (forall i, j | 0 <= i < j < |txs| :: txs[i].tx.txid != txs[j].tx.txid)
  }

  lemma FreshRunPrefix(t: Tables, txs: seq<TxAt>, n: nat)
    requires FreshRun(t, txs) && n <= |txs|
    ensures FreshRun(t, txs[..n])
  {
    assert forall i | 0 <= i < n :: txs[..n][i] == txs[i];
  }

  lemma LastStep(t: Tables, node: Node, txs: seq<TxAt>)
    requires txs != [] && RunTxs(t, node, txs).Ok?
    ensures var n := |txs| - 1;
            && RunTxs(t, node, txs[..n]).Ok? && PlanTx(RunTxs(t, node, txs[..n]).value, node, txs[n].tx).Ok?
            && RunTxs(t, node, txs) == StepTx(RunTxs(t, node, txs[..n]).value, node, txs[n].tx, txs[n].at)
            && StepTx(RunTxs(t, node, txs[..n]).value, node, txs[n].tx, txs[n].at).Ok?
  {
  }

  lemma FreshLast(t: Tables, txs: seq<TxAt>, txid: Txid)
    requires FreshRun(t, txs) && txs != []
    ensures var n := |txs| - 1;
            && FreshRun(t, txs[..n]) && FreshTxid(t, txs[n].tx.txid)
            && (forall i | 0 <= i < n :: txs[..n][i].tx.txid != txs[n].tx.txid)
            && ((forall i | 0 <= i < |txs| :: txs[i].tx.txid != txid) ==>
                  (forall i | 0 <= i < n :: txs[..n][i].tx.txid != txid) && txs[n].tx.txid != txid)
  {
    hide FreshTxid;
    FreshRunPrefix(t, txs, |txs| - 1);
  }

  lemma StillFresh(t: Tables, t': Tables, txid: Txid, other: Txid)
    requires forall k | k in t'.utxos :: k in t.utxos || k.outpoint.txid == txid
    ensures FreshTxid(t, other) && other != txid ==> FreshTxid(t', other)
  {
  }

  lemma NoRun(t: Tables, node: Node)
    ensures RunTxs(t, node, []) == Ok(t)
  {
  }

  /** Every state of every run satisfies the table invariant, and knows only the run's transactions. */
  lemma {:induction false} RunKeepsInv(t: Tables, node: Node, txs: seq<TxAt>, txid: Txid)
    requires Inv(t) && FreshRun(t, txs) && RunTxs(t, node, txs).Ok?
    ensures Inv(RunTxs(t, node, txs).value)
    ensures FreshTxid(t, txid) && (forall i | 0 <= i < |txs| :: txs[i].tx.txid != txid) ==>
      FreshTxid(RunTxs(t, node, txs).value, txid)
    decreases |txs|
  {
    hide *;
    NoRun(t, node);
    if txs != [] {
      var n := |txs| - 1;
      LastStep(t, node, txs);
      FreshLast(t, txs, txid);
      RunKeepsInv(t, node, txs[..n], txs[n].tx.txid);
      RunKeepsInv(t, node, txs[..n], txid);
      var before := RunTxs(t, node, txs[..n]).value;
      StepKeepsInv(before, node, txs[n].tx, txs[n].at);
      StillFresh(before, StepTx(before, node, txs[n].tx, txs[n].at).value, txs[n].tx.txid, txid);
    }
  }

  lemma RunStepsFresh(t: Tables, node: Node, txs: seq<TxAt>)
    requires Inv(t) && FreshRun(t, txs) && txs != [] && RunTxs(t, node, txs[..|txs| - 1]).Ok?
    ensures Inv(RunTxs(t, node, txs[..|txs| - 1]).value)
    ensures FreshTxid(RunTxs(t, node, txs[..|txs| - 1]).value, txs[|txs| - 1].tx.txid)
  {
    var n := |txs| - 1;
    FreshRunPrefix(t, txs, n);
    RunKeepsInv(t, node, txs[..n], txs[n].tx.txid);
  }

  /** Some transaction of the run registers the token. */
  ghost predicate RegisteredIn(t: Tables, node: Node, txs: seq<TxAt>, x: Token) {
    txs != [] &&
    var n := |txs| - 1;
    && RunTxs(t, node, txs[..n]).Ok?
    && (RegisteredIn(t, node, txs[..n], x) || Registers(RunTxs(t, node, txs[..n]).value, node, txs[n].tx, x))
  }

  ghost predicate NoMixRejected(t: Tables, node: Node, txs: seq<TxAt>) {
    txs == [] ||
    var n := |txs| - 1;
    && RunTxs(t, node, txs[..n]).Ok?
    && NoMixRejected(t, node, txs[..n]) && !RejectedMix(RunTxs(t, node, txs[..n]).value, txs[n].tx)
  }

  /**
    Over any run no token appears that was not held before or registered on the way; and if no mix
    was rejected, none disappears.
    */
  lemma {:induction false} RunConserves(t: Tables, node: Node, txs: seq<TxAt>, x: Token)
    requires Inv(t) && FreshRun(t, txs) && RunTxs(t, node, txs).Ok?
    ensures Held(RunTxs(t, node, txs).value, x) ==> Held(t, x) || RegisteredIn(t, node, txs, x)
    ensures NoMixRejected(t, node, txs) ==>
      (Held(RunTxs(t, node, txs).value, x) <==> Held(t, x) || RegisteredIn(t, node, txs, x))
  {
    if txs != [] {
      var n := |txs| - 1;
      FreshRunPrefix(t, txs, n);
      RunConserves(t, node, txs[..n], x);
      RunStepsFresh(t, node, txs);
      var before := RunTxs(t, node, txs[..n]).value;
      if RejectedMix(before, txs[n].tx) {
        RejectedMixForfeits(before, node, txs[n].tx, txs[n].at, x);
      } else {
        TokensConserved(before, node, txs[n].tx, txs[n].at, x);
      }
    }
  }
}
