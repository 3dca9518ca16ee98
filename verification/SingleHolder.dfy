/**
  One holder for each token: what it means, and how often a plan names a token.

  Registration does not look at who holds a slot already, so single holding is conditional. A plan names
  no token more often than its inputs and its registration do.
  */
module SingleHolder {
  import opened Prelude
  import opened Spans
  import opened Tokens
  import opened Storage
  import opened TableInvariant
  import opened Transactions
  import opened MixPayload
  import opened MixRouting
  import opened Writes
  import opened Parser
  import opened Ledger
  import opened Accounting
  import Payload
  import MixDigest

  function Count(ts: seq<Token>, x: Token): nat {
    if ts == [] then 0 else Count(ts[..|ts| - 1], x) + if ts[|ts| - 1] == x then 1 else 0
  }

  /** No outpoint holds a token twice, and no two outpoints hold the same token. */
  ghost predicate Single(t: Tables) {
    && (forall op, x :: Count(TokensAt(t, op), x) <= 1)
    && (forall p, q, x :: HeldAt(t, p, x) && HeldAt(t, q, x) ==> p == q)
  }

  /** A transaction spends an outpoint once. */
  predicate DistinctInputs(ins: seq<OutPoint>) {
    forall i, j | 0 <= i < j < |ins| :: ins[i] == ins[j] ==> ins[i] == NULL_OUTPOINT
  }

  function AllSlices(ws: seq<Write>): seq<Slice> {
    if ws == [] then [] else AllSlices(ws[..|ws| - 1]) + ws[|ws| - 1].slices
  }

  /** The registration names only slots nobody holds, and none of them twice. */
  ghost predicate NewRegistration(t: Tables, node: Node, tx: Tx) {
    forall x | Registers(t, node, tx, x) ::
      !Held(t, x) && Count(Flatten(AllSlices(RegisterPart(t, node, tx))), x) <= 1
  }

  lemma NothingStored(t: Tables)
    requires t.utxos == map[] && t.ranges == []
    ensures Inv(t) && Single(t)
  {
    assert forall op: OutPoint :: RowsAt(t.ranges, op) == [];
    assert forall op: OutPoint :: SlicesAt(t, op) == [];
    forall op: OutPoint ensures TokensAt(t, op) == [] {
      QueryMeaning(t, op);
    }
  }

  // ---------------------------------------------------------------------------
  // Counting through the writes
  // ---------------------------------------------------------------------------

  lemma {:induction false} CountConcat(a: seq<Token>, b: seq<Token>, x: Token)
    ensures Count(a + b, x) == Count(a, x) + Count(b, x)
  {
    if b == [] {
      assert a + b == a;
    } else {
      var n := |b| - 1;
      CountConcat(a, b[..n], x);
      assert (a + b)[..|a + b| - 1] == a + b[..n];
    }
  }

  lemma {:induction false} HeldIsCounted(ts: seq<Token>, x: Token)
    ensures x in ts <==> Count(ts, x) > 0
  {
    if ts != [] {
      HeldIsCounted(ts[..|ts| - 1], x);
      assert ts == ts[..|ts| - 1] + [ts[|ts| - 1]];
    }
  }

  lemma {:induction false} AppendNewCount(xs: seq<Slice>, ys: seq<Slice>, x: Token)
    ensures Count(Flatten(AppendNew(xs, ys)), x) <= Count(Flatten(xs), x) + Count(Flatten(ys), x)
  {
    if ys != [] {
      var n := |ys| - 1;
      AppendNewCount(xs, ys[..n], x);
      FlattenPush(AppendNew(xs, ys[..n]), ys[n]);
      CountConcat(Flatten(AppendNew(xs, ys[..n])), Run(ys[n]), x);
      CountConcat(Flatten(ys[..n]), Run(ys[n]), x);
    }
  }

  lemma WrittenAtStep(ws: seq<Write>, v: nat, x: Token)
    requires ws != []
    ensures Count(Flatten(WrittenAt(ws, v)), x)
         == Count(Flatten(WrittenAt(ws[..|ws| - 1], v)), x)
            + if ws[|ws| - 1].vout == v then Count(Flatten(ws[|ws| - 1].slices), x) else 0
  {
    var n := |ws| - 1;
    FlattenConcat(WrittenAt(ws[..n], v), ws[n].slices);
    CountConcat(Flatten(WrittenAt(ws[..n], v)), Flatten(ws[n].slices), x);
    assert WrittenAt(ws[..n], v) + [] == WrittenAt(ws[..n], v);
  }

  lemma AllSlicesStep(ws: seq<Write>, x: Token)
    requires ws != []
    ensures Count(Flatten(AllSlices(ws)), x)
         == Count(Flatten(AllSlices(ws[..|ws| - 1])), x) + Count(Flatten(ws[|ws| - 1].slices), x)
  {
    FlattenConcat(AllSlices(ws[..|ws| - 1]), ws[|ws| - 1].slices);
    CountConcat(Flatten(AllSlices(ws[..|ws| - 1])), Flatten(ws[|ws| - 1].slices), x);
  }

  lemma {:induction false} WrittenAtCount(ws: seq<Write>, v: nat, u: nat, x: Token)
    ensures Count(Flatten(WrittenAt(ws, v)), x) <= Count(Flatten(AllSlices(ws)), x)
    ensures v != u ==>
      Count(Flatten(WrittenAt(ws, v)), x) + Count(Flatten(WrittenAt(ws, u)), x) <= Count(Flatten(AllSlices(ws)), x)
  {
    if ws != [] {
      WrittenAtCount(ws[..|ws| - 1], v, u, x);
      WrittenAtStep(ws, v, x);
      WrittenAtStep(ws, u, x);
      AllSlicesStep(ws, x);
    }
  }

  lemma AllSlicesPush(ws: seq<Write>, w: Write)
    ensures AllSlices(ws + [w]) == AllSlices(ws) + w.slices
  {
    assert (ws + [w])[..|ws|] == ws;
  }

  lemma {:induction false} AllSlicesConcat(ws: seq<Write>, vs: seq<Write>)
    ensures AllSlices(ws + vs) == AllSlices(ws) + AllSlices(vs)
    decreases |vs|
  {
    if vs == [] {
      assert ws + vs == ws && AllSlices(ws) + [] == AllSlices(ws);
    } else {
      hide AllSlices;
      var init, w := SplitWrites(vs);
      AllSlicesConcat(ws, init);
      AllSlicesPush(init, w);
      AllSlicesPush(ws + init, w);
      WritesAssoc(ws, init, w);
      SlicesAssoc(AllSlices(ws), AllSlices(init), w.slices);
    }
  }

  lemma {:induction false} AllSlicesTokens(ws: seq<Write>, x: Token)
    ensures x in Flatten(AllSlices(ws)) <==> InWrites(ws, x)
    decreases |ws|
  {
    if ws != [] {
      var n := |ws| - 1;
      AllSlicesTokens(ws[..n], x);
      FlattenConcat(AllSlices(ws[..n]), ws[n].slices);
      hide Flatten;
      assert forall w :: w in ws <==> w in ws[..n] || w == ws[n];
    }
  }

  /** Implicit transfer hands on the input tokens in input order. */
  lemma {:induction false} TransfersSequence(node: Node, tx: Tx, inputs: seq<TokenInput>)
    requires forall j | 0 <= j < |inputs| :: WfSlices(inputs[j].ranges)
    ensures Flatten(AllSlices(Transfers(node, tx, inputs))) == Flatten(AllRanges(inputs))
  {
    if inputs != [] {
      var n := |inputs| - 1;
      var ws := Transfers(node, tx, inputs);
      assert ws[..n] == Transfers(node, tx, inputs[..n]);
      TransfersSequence(node, tx, inputs[..n]);
      CoalesceCanonical(inputs[n].ranges, inputs[n].ranges);
      FlattenConcat(AllSlices(ws[..n]), ws[n].slices);
      FlattenConcat(AllRanges(inputs[..n]), inputs[n].ranges);
    }
  }

  // ---------------------------------------------------------------------------
  // Counting through a mix
  // ---------------------------------------------------------------------------

  /** At most one output receives an index. */
  lemma ExplicitReceiver(d: MixData, es: seq<ExplicitRange>, i: nat, o: nat) returns (y: nat)
    requires ValidBasic(d) && Chain(d, es) && o < |d.outputRanges| && o != d.complementIndex && Receives(d, o, i)
    ensures y < |es| && es[y].start <= i < es[y].end
  {
    hide ValidBasic, Receives;
    ReceivesByExplicit(d, es, o, i);
    var e :| e in es && e.outputIndex == o && Contains(SpanOf(e), 0, i);
    y :| 0 <= y < |es| && es[y] == e;
  }

  lemma ReceiverUnique(d: MixData, i: nat, k: nat, j: nat)
    requires ValidBasic(d) && k < |d.outputRanges| && j < |d.outputRanges|
    requires Receives(d, k, i) && Receives(d, j, i)
    ensures k == j
  {
    hide *;
    var es := Sort(Explicit(d), SpanOf);
    SortedIsChain(d);
    var o := if k == d.complementIndex then j else k;
    if o != d.complementIndex {
      var y := ExplicitReceiver(d, es, i, o);
      InsideRange(d, es, y, i, k);
      InsideRange(d, es, y, i, j);
    }
  }

  lemma OneReceiver(d: MixData, i: nat, r: nat)
    requires ValidBasic(d) && r < |d.outputRanges| && Receives(d, r, i)
    ensures AllTo(d, i, i + 1, r)
  {
    forall j: nat, k: nat | i <= j < i + 1 && k < |d.outputRanges| ensures Receives(d, k, j) <==> k == r {
      if Receives(d, k, i) {
        ReceiverUnique(d, i, k, r);
      }
    }
  }

  ghost function RoutedCount(ts: seq<Token>, d: MixData, m: nat, x: Token): nat {
    if m == 0 then 0 else RoutedCount(ts, d, m - 1, x) + Count(Routed(ts, d, m - 1), x)
  }

  lemma RoutedStep(ts: seq<Token>, t: Token, d: MixData, k: nat, x: Token)
    ensures Count(Routed(ts + [t], d, k), x)
         == Count(Routed(ts, d, k), x) + if Receives(d, k, |ts|) && t == x then 1 else 0
  {
    assert (ts + [t])[..|ts|] == ts;
    if Receives(d, k, |ts|) {
      CountConcat(Routed(ts, d, k), [t], x);
    } else {
      assert Routed(ts, d, k) + [] == Routed(ts, d, k);
    }
  }

  lemma {:induction false} RoutedCountBump(
    us: seq<Token>, ts: seq<Token>, d: MixData, m: nat, x: Token, r: nat, bump: nat)
    requires forall k: nat | k < m ::
      Count(Routed(us, d, k), x) == Count(Routed(ts, d, k), x) + if k == r then bump else 0
    ensures RoutedCount(us, d, m, x) == RoutedCount(ts, d, m, x) + if r < m then bump else 0
    decreases m
  {
    if m > 0 {
      RoutedCountBump(us, ts, d, m - 1, x, r, bump);
    }
  }

  lemma RoutedCountStep(ts: seq<Token>, t: Token, d: MixData, x: Token, r: nat)
    requires r < |d.outputRanges| && AllTo(d, |ts|, |ts| + 1, r)
    ensures RoutedCount(ts + [t], d, |d.outputRanges|, x)
         == RoutedCount(ts, d, |d.outputRanges|, x) + if t == x then 1 else 0
  {
    hide Routed, RoutedCount, Count;
    var m := |d.outputRanges|;
    var bump := if t == x then 1 else 0;
    var us := ts + [t];
    forall k: nat | k < m
      ensures Count(Routed(us, d, k), x) == Count(Routed(ts, d, k), x) + if k == r then bump else 0
    {
      RoutedStep(ts, t, d, k, x);
      assert Receives(d, k, |ts|) <==> k == r;
    }
    RoutedCountBump(us, ts, d, m, x, r, bump);
  }

  lemma RoutedCountLast(init: seq<Token>, t: Token, d: MixData, x: Token)
    requires ValidBasic(d)
    ensures RoutedCount(init + [t], d, |d.outputRanges|, x)
         == RoutedCount(init, d, |d.outputRanges|, x) + if t == x then 1 else 0
  {
    hide RoutedCount;
    var r := Receiver(d, |init|);
    OneReceiver(d, |init|, r);
    RoutedCountStep(init, t, d, x, r);
  }

  lemma CountLast(init: seq<Token>, t: Token, x: Token)
    ensures Count(init + [t], x) == Count(init, x) + if t == x then 1 else 0
  {
    assert (init + [t])[..|init|] == init;
  }

  /** Routing hands every occurrence of a token to exactly one output. */
  lemma {:induction false} RoutedCountsAll(ts: seq<Token>, d: MixData, x: Token)
    requires ValidBasic(d)
    ensures RoutedCount(ts, d, |d.outputRanges|, x) == Count(ts, x)
    decreases |ts|
  {
    if ts == [] {
      RoutedCountEmpty(d, |d.outputRanges|, x);
    } else {
      hide RoutedCount, Count, ValidBasic;
      var init, t := Unsnoc(ts);
      RoutedCountsAll(init, d, x);
      RoutedCountLast(init, t, d, x);
      CountLast(init, t, x);
    }
  }

  lemma {:induction false} RoutedCountEmpty(d: MixData, m: nat, x: Token)
    ensures RoutedCount([], d, m, x) == 0
  {
    if m > 0 {
      RoutedCountEmpty(d, m - 1, x);
    }
  }

  lemma UnsnocWrites(ws: seq<Write>) returns (init: seq<Write>)
    requires ws != []
    ensures init == ws[..|ws| - 1] && |init| + 1 == |ws|
    ensures forall k | 0 <= k < |init| :: init[k] == ws[k]
  {
    init := ws[..|ws| - 1];
  }

  lemma NoWritesCount(ts: seq<Token>, d: MixData, x: Token)
    ensures Count(Flatten(AllSlices([])), x) == 0 == RoutedCount(ts, d, 0, x)
  {
  }

  lemma {:induction false} RoutedWritesCount(ws: seq<Write>, ts: seq<Token>, d: MixData, x: Token)
    requires forall k | 0 <= k < |ws| :: Flatten(ws[k].slices) == Routed(ts, d, k)
    ensures Count(Flatten(AllSlices(ws)), x) == RoutedCount(ts, d, |ws|, x)
    decreases |ws|
  {
    hide *;
    if ws == [] {
      NoWritesCount(ts, d, x);
    } else {
      var init := UnsnocWrites(ws);
      RoutedWritesCount(init, ts, d, x);
      AllSlicesStep(ws, x);
      RoutedCountPush(ts, d, |init|, x);
    }
  }

  lemma RoutedCountPush(ts: seq<Token>, d: MixData, n: nat, x: Token)
    ensures RoutedCount(ts, d, n + 1, x) == RoutedCount(ts, d, n, x) + Count(Routed(ts, d, n), x)
  {
  }

  // ---------------------------------------------------------------------------
  // Counting the inputs
  // ---------------------------------------------------------------------------

  lemma {:induction false} InputsCount(t: Tables, ins: seq<OutPoint>, x: Token)
    requires Single(t) && DistinctInputs(ins)
    ensures Count(Flatten(AllRanges(TokenInputs(t, ins))), x) <= 1
    ensures Count(Flatten(AllRanges(TokenInputs(t, ins))), x) > 0 ==>
      exists i :: 0 <= i < |ins| && ins[i] != NULL_OUTPOINT && HeldAt(t, ins[i], x)
  {
    if ins != [] {
      var n := |ins| - 1;
      InputsCount(t, ins[..n], x);
      var before := TokenInputs(t, ins[..n]);
      if HoldsTokens(t, ins[n]) {
        var input := TokenInput(ins[n], UnspentRanges(t, ins[n]));
        assert (before + [input])[..|before|] == before;
        FlattenConcat(AllRanges(before), input.ranges);
        CountConcat(Flatten(AllRanges(before)), Flatten(input.ranges), x);
        HeldIsCounted(TokensAt(t, ins[n]), x);
        assert Count(TokensAt(t, ins[n]), x) <= 1;
      } else {
        assert before + [] == before;
      }
      if i :| 0 <= i < n && ins[..n][i] != NULL_OUTPOINT && HeldAt(t, ins[..n][i], x) {
        assert ins[i] != NULL_OUTPOINT && HeldAt(t, ins[i], x);
        assert HeldAt(t, ins[n], x) ==> ins[i] == ins[n];
      }
    }
  }

  lemma InputsWf(t: Tables, ins: seq<OutPoint>)
    requires RangesSound(t)
    ensures forall j | 0 <= j < |TokenInputs(t, ins)| :: WfSlices(TokenInputs(t, ins)[j].ranges)
  {
    var inputs := TokenInputs(t, ins);
    forall j | 0 <= j < |inputs| ensures WfSlices(inputs[j].ranges) {
      assert inputs[j] in inputs;
      InputStorable(t, ins, inputs[j]);
      TokensOfStorable(t, inputs[j].ranges);
    }
  }

  // ---------------------------------------------------------------------------
  // One transaction
  // ---------------------------------------------------------------------------

  lemma MixPlanCount(t: Tables, node: Node, tx: Tx, d: MixData, x: Token)
    requires RangesSound(t) && PlanTx(t, node, tx).Ok? && TxPayload(tx) == Some(Payload.Mix(d))
    ensures Count(Flatten(AllSlices(PlanTx(t, node, tx).value.writes)), x)
         <= Count(Flatten(AllRanges(TokenInputs(t, tx.inputs))), x)
  {
    PayloadValid(tx);
    var inputs := TokenInputs(t, tx.inputs);
    var outcome := MixDigest.MixOutcome(d, tx, inputs, TokensFirst(t, tx.inputs)).value;
    if outcome.Some? {
      var ws, ts := MixDigest.MixWrites(node, tx, outcome.value), Flatten(AllRanges(inputs));
      forall k | 0 <= k < |ws| ensures Flatten(ws[k].slices) == Routed(ts, d, k) {
        MixPartTokens(t, node, tx, d, outcome.value, k);
      }
      RoutedWritesCount(ws, ts, d, x);
      RoutedCountsAll(ts, d, x);
    }
  }

  lemma OtherPlanCount(t: Tables, node: Node, tx: Tx, x: Token)
    requires RangesSound(t) && PlanTx(t, node, tx).Ok?
    requires TxPayload(tx).Some? ==> !TxPayload(tx).value.Mix?
    ensures Count(Flatten(AllSlices(PlanTx(t, node, tx).value.writes)), x)
         == Count(Flatten(AllSlices(RegisterPart(t, node, tx))), x)
            + Count(Flatten(AllRanges(TokenInputs(t, tx.inputs))), x)
  {
    var inputs := TokenInputs(t, tx.inputs);
    var registered, moved := RegisterPart(t, node, tx), Transfers(node, tx, inputs);
    assert PlanTx(t, node, tx).value.writes == registered + moved;
    InputsWf(t, tx.inputs);
    TransfersSequence(node, tx, inputs);
    AllSlicesConcat(registered, moved);
    FlattenConcat(AllSlices(registered), AllSlices(moved));
    CountConcat(Flatten(AllSlices(registered)), Flatten(AllSlices(moved)), x);
  }

  /** A plan writes no token more often than its inputs and its registration name it. */
  lemma PlanCount(t: Tables, node: Node, tx: Tx, x: Token)
    requires RangesSound(t) && PlanTx(t, node, tx).Ok?
    ensures Count(Flatten(AllSlices(PlanTx(t, node, tx).value.writes)), x)
         <= Count(Flatten(AllRanges(TokenInputs(t, tx.inputs))), x)
            + Count(Flatten(AllSlices(RegisterPart(t, node, tx))), x)
  {
    if TxPayload(tx).Some? && TxPayload(tx).value.Mix? {
      MixPlanCount(t, node, tx, TxPayload(tx).value.mix, x);
    } else {
      OtherPlanCount(t, node, tx, x);
    }
  }
}
