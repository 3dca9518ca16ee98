/**
  Exactly when a transaction keeps single holding: what it writes must be placed once, and what it
  registers must be new or spent by it. Nothing is asked of the transaction beforehand.
  */
module Placement {
  import opened Prelude
  import opened Tokens
  import opened Storage
  import opened TableInvariant
  import opened Transactions
  import opened Writes
  import opened Parser
  import opened Ledger
  import opened Accounting
  import opened SingleHolder
  import opened Delivery

  // ---------------------------------------------------------------------------
  // Ranges that share a token
  // ---------------------------------------------------------------------------

  lemma {:induction false} RunCount(s: Slice, x: Token)
    ensures Count(Run(s), x) == if Covers(s, x) then 1 else 0
    decreases s.end - s.start
  {
    if s.start > s.end {
      assert Run(s) == [];
    } else if s.start == s.end {
      assert Run(s) == [] + [Token(s.group, s.start)];
      CountLast([], Token(s.group, s.start), x);
    } else {
      RunFront(s);
      RunCount(s.(end := s.end - 1), x);
      CountLast(Run(s.(end := s.end - 1)), Token(s.group, s.end), x);
    }
  }

  lemma CoveredCounts(xs: seq<Slice>, i: nat, x: Token)
    requires i < |xs| && Covers(xs[i], x)
    ensures Count(Flatten(xs), x) > 0
  {
    FlattenCovers(xs, x);
    HeldIsCounted(Flatten(xs), x);
  }

  /** Two places that cover a token hold it twice. */
  lemma CountTwo(xs: seq<Slice>, i: nat, j: nat, x: Token)
    requires i < j < |xs| && Covers(xs[i], x) && Covers(xs[j], x)
    ensures Count(Flatten(xs), x) >= 2
  {
    hide Count, Flatten;
    var front, back := xs[..j], xs[j..];
    assert xs == front + back;
    CoveredCounts(front, i, x);
    CoveredCounts(back, 0, x);
    FlattenConcat(front, back);
    CountConcat(Flatten(front), Flatten(back), x);
  }

  /** Distinct ranges, of which only one covers the token, hold it at most once. */
  lemma {:induction false} CountAtMostOnce(xs: seq<Slice>, x: Token)
    requires Distinct(xs)
    requires forall s, r | s in xs && r in xs && Covers(s, x) && Covers(r, x) :: s == r
    ensures Count(Flatten(xs), x) <= 1
    decreases |xs|
  {
    if xs != [] {
      var n := |xs| - 1;
      assert xs[n] in xs && forall s | s in xs[..n] :: s in xs;
      CountAtMostOnce(xs[..n], x);
      CountConcat(Flatten(xs[..n]), Run(xs[n]), x);
      RunCount(xs[n], x);
      forall i | 0 <= i < n ensures !(Covers(xs[n], x) && Covers(xs[..n][i], x)) {
        assert xs[i] in xs && xs[i] != xs[n];
      }
      HeldIsCounted(Flatten(xs[..n]), x);
      FlattenCovers(xs[..n], x);
    }
  }

  lemma {:induction false} AppendNewMembers(ys: seq<Slice>, s: Slice)
    ensures s in AppendNew([], ys) <==> s in ys
    decreases |ys|
  {
    if ys != [] {
      var n := |ys| - 1;
      AppendNewMembers(ys[..n], s);
      AppendNewMembers(ys[..n], ys[n]);
      assert s in ys <==> s in ys[..n] || s == ys[n];
    }
  }

  lemma {:induction false} WrittenAtMembers(ws: seq<Write>, v: nat, s: Slice)
    ensures s in WrittenAt(ws, v) <==> exists w :: w in ws && w.vout == v && s in w.slices
    decreases |ws|
  {
    if ws != [] {
      var n := |ws| - 1;
      WrittenAtMembers(ws[..n], v, s);
      assert forall w :: w in ws <==> w in ws[..n] || w == ws[n];
    }
  }

  // ---------------------------------------------------------------------------
  // Placed once
  // ---------------------------------------------------------------------------

  /** Ranges that share a token are the same range, given to the same output. */
  ghost predicate PlacedOnce(ws: seq<Write>) {
    forall w, z, s, r, x | w in ws && z in ws && s in w.slices && r in z.slices && Covers(s, x) && Covers(r, x) ::
      w.vout == z.vout && s == r
  }

  /** Every holder of a registered token is spent by the transaction. */
  ghost predicate NewOrSpent(t: Tables, node: Node, tx: Tx) {
    forall x, op | Registers(t, node, tx, x) && HeldAt(t, op, x) :: Spends(tx, op)
  }

  lemma CoversInWrites(ws: seq<Write>, w: Write, s: Slice, x: Token)
    requires w in ws && s in w.slices && Covers(s, x)
    ensures InWrites(ws, x) && x in Flatten(w.slices) && x in Flatten(WrittenAt(ws, w.vout))
  {
    var i :| 0 <= i < |w.slices| && w.slices[i] == s;
    FlattenCovers(w.slices, x);
    WrittenAtTokens(ws, w.vout, x);
  }

  /** A plan that names no token twice places everything once. */
  lemma {:induction false} CountedOncePlacedOnce(ws: seq<Write>)
    requires forall x :: Count(Flatten(AllSlices(ws)), x) <= 1
    ensures PlacedOnce(ws)
    decreases |ws|
  {
    if ws != [] {
      var n := |ws| - 1;
      forall x ensures Count(Flatten(AllSlices(ws[..n])), x) <= 1 {
        AllSlicesStep(ws, x);
      }
      CountedOncePlacedOnce(ws[..n]);
      forall w, z, s, r, x | w in ws && z in ws && s in w.slices && r in z.slices && Covers(s, x) && Covers(r, x)
        ensures w.vout == z.vout && s == r
      {
        OnceTogether(ws, w, z, s, r, x);
      }
    }
  }

  lemma OnceInList(xs: seq<Slice>, s: Slice, r: Slice, x: Token)
    requires Count(Flatten(xs), x) <= 1 && s in xs && r in xs && Covers(s, x) && Covers(r, x)
    ensures s == r
  {
    var i :| 0 <= i < |xs| && xs[i] == s;
    var j :| 0 <= j < |xs| && xs[j] == r;
    if i < j {
      CountTwo(xs, i, j, x);
    } else if j < i {
      CountTwo(xs, j, i, x);
    }
  }

  lemma CountedInWrite(w: Write, s: Slice, x: Token)
    requires s in w.slices && Covers(s, x)
    ensures Count(Flatten(w.slices), x) > 0
  {
    CoversInWrites([w], w, s, x);
    HeldIsCounted(Flatten(w.slices), x);
  }

  lemma CountedInWrites(ws: seq<Write>, w: Write, s: Slice, x: Token)
    requires w in ws && s in w.slices && Covers(s, x)
    ensures Count(Flatten(AllSlices(ws)), x) > 0
  {
    CoversInWrites(ws, w, s, x);
    AllSlicesTokens(ws, x);
    HeldIsCounted(Flatten(AllSlices(ws)), x);
  }

  lemma OnceTogether(ws: seq<Write>, w: Write, z: Write, s: Slice, r: Slice, x: Token)
    requires ws != [] && PlacedOnce(ws[..|ws| - 1]) && Count(Flatten(AllSlices(ws)), x) <= 1
    requires w in ws && z in ws && s in w.slices && r in z.slices && Covers(s, x) && Covers(r, x)
    ensures w.vout == z.vout && s == r
  {
    var init, last := ws[..|ws| - 1], ws[|ws| - 1];
    AllSlicesStep(ws, x);
    hide Count, Flatten, AllSlices, Covers;
    assert forall y :: y in ws <==> y in init || y == last;
    if w !in init || z !in init {
      CountedInWrite(last, if w !in init then s else r, x);
      if w in init {
        CountedInWrites(init, w, s, x);
      }
      if z in init {
        CountedInWrites(init, z, r, x);
      }
      OnceInList(last.slices, s, r, x);
    }
  }

  // ---------------------------------------------------------------------------
  // Single holding after a transaction
  // ---------------------------------------------------------------------------

  lemma RegisteredIsHeld(t: Tables, node: Node, tx: Tx, at: Position, x: Token) returns (op: OutPoint)
    requires Inv(t) && FreshTxid(t, tx.txid) && StepTx(t, node, tx, at).Ok?
    requires Registers(t, node, tx, x)
    ensures op.txid == tx.txid && HeldAt(StepTx(t, node, tx, at).value, op, x)
  {
    var part := RegisterPart(t, node, tx);
    var ws := PlanTx(t, node, tx).value.writes;
    var w :| w in part && x in Flatten(w.slices);
    op := OutPoint(tx.txid, w.vout);
    assert w in ws;
    WrittenAtTokens(ws, op.vout, x);
    HeldAtOutput(t, node, tx, at, op.vout, x);
  }

  /** Registering a slot that an unspent, untouched outpoint holds gives it a second holder. */
  lemma DoubleRegistration(t: Tables, node: Node, tx: Tx, at: Position, x: Token, holder: OutPoint)
    requires Inv(t) && FreshTxid(t, tx.txid) && StepTx(t, node, tx, at).Ok?
    requires Registers(t, node, tx, x) && HeldAt(t, holder, x) && !Spends(tx, holder)
    ensures !Single(StepTx(t, node, tx, at).value)
  {
    var op := RegisteredIsHeld(t, node, tx, at, x);
    StepEffect(t, node, tx, at, holder);
    if holder.txid == tx.txid {
      FreshHasNothing(t, holder);
    }
    assert HeldAt(StepTx(t, node, tx, at).value, holder, x);
  }

  /** In a state of single holders, two ranges written by the last transaction that share a token were placed once. */
  lemma SinglePlaces(
    t: Tables, node: Node, tx: Tx, at: Position, w: Write, z: Write, s: Slice, r: Slice, x: Token)
    requires Inv(t) && FreshTxid(t, tx.txid) && StepTx(t, node, tx, at).Ok?
    requires Single(StepTx(t, node, tx, at).value)
    requires var ws := PlanTx(t, node, tx).value.writes; w in ws && z in ws
    requires s in w.slices && r in z.slices && Covers(s, x) && Covers(r, x)
    ensures w.vout == z.vout && s == r
  {
    var t', ws := StepTx(t, node, tx, at).value, PlanTx(t, node, tx).value.writes;
    var p, q := OutPoint(tx.txid, w.vout), OutPoint(tx.txid, z.vout);
    CoversInWrites(ws, w, s, x);
    CoversInWrites(ws, z, r, x);
    HeldAtOutput(t, node, tx, at, w.vout, x);
    HeldAtOutput(t, node, tx, at, z.vout, x);
    assert HeldAt(t', p, x) && HeldAt(t', q, x);
    StepEffect(t, node, tx, at, p);
    WrittenAtMembers(ws, w.vout, s);
    WrittenAtMembers(ws, w.vout, r);
    BothStored(UnspentRanges(t', p), WrittenAt(ws, w.vout), s, r, x);
  }

  lemma BothStored(stored: seq<Slice>, written: seq<Slice>, s: Slice, r: Slice, x: Token)
    requires stored == AppendNew([], written) && Count(Flatten(stored), x) <= 1
    requires s in written && r in written && Covers(s, x) && Covers(r, x)
    ensures s == r
  {
    AppendNewMembers(written, s);
    AppendNewMembers(written, r);
    OnceInList(stored, s, r, x);
  }

  lemma PlacedCount(t: Tables, node: Node, tx: Tx, at: Position, v: nat, x: Token)
    requires Inv(t) && FreshTxid(t, tx.txid) && StepTx(t, node, tx, at).Ok?
    requires PlacedOnce(PlanTx(t, node, tx).value.writes)
    ensures Count(TokensAt(StepTx(t, node, tx, at).value, OutPoint(tx.txid, v)), x) <= 1
  {
    var ws := PlanTx(t, node, tx).value.writes;
    var written := WrittenAt(ws, v);
    var stored := AppendNew([], written);
    StepEffect(t, node, tx, at, OutPoint(tx.txid, v));
    AppendNewDistinct([], written);
    forall s, r | s in stored && r in stored && Covers(s, x) && Covers(r, x) ensures s == r {
      AppendNewMembers(written, s);
      AppendNewMembers(written, r);
      WrittenAtMembers(ws, v, s);
      WrittenAtMembers(ws, v, r);
    }
    CountAtMostOnce(stored, x);
  }

  /** Where a holder after the step comes from. */
  lemma HolderOrigin(t: Tables, node: Node, tx: Tx, at: Position, op: OutPoint, x: Token)
    requires Inv(t) && FreshTxid(t, tx.txid) && StepTx(t, node, tx, at).Ok?
    requires HeldAt(StepTx(t, node, tx, at).value, op, x)
    ensures op.txid != tx.txid ==> !Spends(tx, op) && HeldAt(t, op, x)
    ensures op.txid == tx.txid ==>
      exists w, s ::
        w in PlanTx(t, node, tx).value.writes && w.vout == op.vout && s in w.slices && Covers(s, x)
  {
    if op.txid == tx.txid {
      var ws := PlanTx(t, node, tx).value.writes;
      HeldAtOutput(t, node, tx, at, op.vout, x);
      WrittenAtTokens(ws, op.vout, x);
      var w :| w in ws && w.vout == op.vout && x in Flatten(w.slices);
      FlattenCovers(w.slices, x);
      var i :| 0 <= i < |w.slices| && Covers(w.slices[i], x);
      assert w.slices[i] in w.slices;
    } else {
      StepEffect(t, node, tx, at, op);
    }
  }

  /** Nothing the plan writes is still held at an outpoint the transaction leaves alone. */
  lemma WrittenNotElsewhere(t: Tables, node: Node, tx: Tx, op: OutPoint, x: Token)
    requires RangesSound(t) && PlanTx(t, node, tx).Ok? && Single(t) && NewOrSpent(t, node, tx)
    requires InWrites(PlanTx(t, node, tx).value.writes, x) && HeldAt(t, op, x)
    ensures Spends(tx, op)
  {
    PlanTokens(t, node, tx, x);
  }

  lemma PlacedHolders(t: Tables, node: Node, tx: Tx, at: Position, p: OutPoint, q: OutPoint, x: Token)
    requires Inv(t) && Single(t) && FreshTxid(t, tx.txid) && StepTx(t, node, tx, at).Ok?
    requires PlacedOnce(PlanTx(t, node, tx).value.writes) && NewOrSpent(t, node, tx)
    requires HeldAt(StepTx(t, node, tx, at).value, p, x) && HeldAt(StepTx(t, node, tx, at).value, q, x)
    ensures p == q
  {
    var ws := PlanTx(t, node, tx).value.writes;
    HolderOrigin(t, node, tx, at, p, x);
    HolderOrigin(t, node, tx, at, q, x);
    if p.txid == tx.txid {
      var w, s :| w in ws && w.vout == p.vout && s in w.slices && Covers(s, x);
      CoversInWrites(ws, w, s, x);
      if q.txid != tx.txid {
        WrittenNotElsewhere(t, node, tx, q, x);
      }
    } else if q.txid == tx.txid {
      var w, s :| w in ws && w.vout == q.vout && s in w.slices && Covers(s, x);
      CoversInWrites(ws, w, s, x);
      WrittenNotElsewhere(t, node, tx, p, x);
    }
  }

  lemma OldCount(t: Tables, node: Node, tx: Tx, at: Position, op: OutPoint, x: Token)
    requires Inv(t) && Single(t) && FreshTxid(t, tx.txid) && StepTx(t, node, tx, at).Ok?
    requires op.txid != tx.txid
    ensures Count(TokensAt(StepTx(t, node, tx, at).value, op), x) <= 1
  {
    StepEffect(t, node, tx, at, op);
    assert Count(TokensAt(t, op), x) <= 1;
  }

  lemma SingleMeansPlaced(t: Tables, node: Node, tx: Tx, at: Position)
    requires Inv(t) && FreshTxid(t, tx.txid) && StepTx(t, node, tx, at).Ok?
    requires Single(StepTx(t, node, tx, at).value)
    ensures PlacedOnce(PlanTx(t, node, tx).value.writes) && NewOrSpent(t, node, tx)
  {
    var ws := PlanTx(t, node, tx).value.writes;
    hide Inv, FreshTxid, StepTx, PlanTx, Single, Covers, Registers, HeldAt, Spends;
    forall w, z, s, r, x | w in ws && z in ws && s in w.slices && r in z.slices && Covers(s, x) && Covers(r, x)
      ensures w.vout == z.vout && s == r
    {
      SinglePlaces(t, node, tx, at, w, z, s, r, x);
    }
    forall x, op | Registers(t, node, tx, x) && HeldAt(t, op, x) ensures Spends(tx, op) {
      if !Spends(tx, op) {
        DoubleRegistration(t, node, tx, at, x, op);
      }
    }
  }

  lemma PlacedMeansSingle(t: Tables, node: Node, tx: Tx, at: Position)
    requires Inv(t) && Single(t) && FreshTxid(t, tx.txid) && StepTx(t, node, tx, at).Ok?
    requires PlacedOnce(PlanTx(t, node, tx).value.writes) && NewOrSpent(t, node, tx)
    ensures Single(StepTx(t, node, tx, at).value)
  {
    var t' := StepTx(t, node, tx, at).value;
    assert PlanTx(t, node, tx).Ok?;
    hide Inv, FreshTxid, StepTx, PlanTx, PlacedOnce, NewOrSpent, TokensAt, HeldAt, Count;
    forall op, x ensures Count(TokensAt(t', op), x) <= 1 {
      if op.txid == tx.txid {
        PlacedCount(t, node, tx, at, op.vout, x);
        assert op == OutPoint(tx.txid, op.vout);
      } else {
        OldCount(t, node, tx, at, op, x);
      }
    }
    forall p, q, x | HeldAt(t', p, x) && HeldAt(t', q, x) ensures p == q {
      PlacedHolders(t, node, tx, at, p, q, x);
    }
  }

  /**
    From single holding, a transaction of any kind leads to single holding if and only if what it
    writes is placed once and every holder of what it registers is spent by it.
    */
  lemma SingleKeptIff(t: Tables, node: Node, tx: Tx, at: Position)
    requires Inv(t) && Single(t) && FreshTxid(t, tx.txid) && StepTx(t, node, tx, at).Ok?
    ensures PlanTx(t, node, tx).Ok?
    ensures Single(StepTx(t, node, tx, at).value)
      <==> PlacedOnce(PlanTx(t, node, tx).value.writes) && NewOrSpent(t, node, tx)
  {
    assert PlanTx(t, node, tx).Ok?;
    hide *;
    if Single(StepTx(t, node, tx, at).value) {
      SingleMeansPlaced(t, node, tx, at);
    }
    if PlacedOnce(PlanTx(t, node, tx).value.writes) && NewOrSpent(t, node, tx) {
      PlacedMeansSingle(t, node, tx, at);
    }
  }

  /** Single holding survives a mix, a transfer, a burn and a registration of new slots. */
  lemma StepKeepsSingle(t: Tables, node: Node, tx: Tx, at: Position)
    requires Inv(t) && FreshTxid(t, tx.txid) && StepTx(t, node, tx, at).Ok?
    requires Single(t) && DistinctInputs(tx.inputs) && NewRegistration(t, node, tx)
    ensures Single(StepTx(t, node, tx, at).value)
  {
    assert RangesSound(t) && PlanTx(t, node, tx).Ok?;
    NewNamesOnce(t, node, tx);
    NamedOncePlacedOnce(t, node, tx);
    assert NewOrSpent(t, node, tx) by {
      assert forall x, op :: HeldAt(t, op, x) ==> Held(t, x);
    }
    SingleKeptIff(t, node, tx, at);
  }

  lemma NamedOncePlacedOnce(t: Tables, node: Node, tx: Tx)
    requires RangesSound(t) && PlanTx(t, node, tx).Ok? && NamesOnce(t, node, tx)
    ensures PlacedOnce(PlanTx(t, node, tx).value.writes)
  {
    var ws := PlanTx(t, node, tx).value.writes;
    forall x ensures Count(Flatten(AllSlices(ws)), x) <= 1 {
      PlanCount(t, node, tx, x);
    }
    CountedOncePlacedOnce(ws);
  }

  // ---------------------------------------------------------------------------
  // Runs
  // ---------------------------------------------------------------------------

  /** Every transaction spends an outpoint once and registers only new slots, none twice. */
  ghost predicate WellBehaved(t: Tables, node: Node, txs: seq<TxAt>) {
    txs == [] ||
    var n := |txs| - 1;
    && RunTxs(t, node, txs[..n]).Ok? && WellBehaved(t, node, txs[..n])
    && DistinctInputs(txs[n].tx.inputs) && NewRegistration(RunTxs(t, node, txs[..n]).value, node, txs[n].tx)
  }

  lemma {:induction false} RunKeepsSingle(t: Tables, node: Node, txs: seq<TxAt>)
    requires Inv(t) && Single(t) && FreshRun(t, txs) && RunTxs(t, node, txs).Ok?
    requires WellBehaved(t, node, txs)
    ensures Single(RunTxs(t, node, txs).value)
    decreases |txs|
  {
    hide Inv, Single, StepTx, PlanTx, FreshTxid, DistinctInputs, NewRegistration;
    if txs != [] {
      var n := |txs| - 1;
      LastStep(t, node, txs);
      FreshRunPrefix(t, txs, n);
      RunKeepsSingle(t, node, txs[..n]);
      RunStepsFresh(t, node, txs);
      StepKeepsSingle(RunTxs(t, node, txs[..n]).value, node, txs[n].tx, txs[n].at);
    }
  }

  /** Every transaction of the run meets the condition when its turn comes. */
  ghost predicate PlacedAllAlong(t: Tables, node: Node, txs: seq<TxAt>) {
    txs == [] ||
    var n := |txs| - 1;
    && PlacedAllAlong(t, node, txs[..n]) && RunTxs(t, node, txs[..n]).Ok?
    && var before := RunTxs(t, node, txs[..n]).value;
       && PlanTx(before, node, txs[n].tx).Ok?
       && PlacedOnce(PlanTx(before, node, txs[n].tx).value.writes) && NewOrSpent(before, node, txs[n].tx)
  }

  /** Every state of the run has single holders. */
  ghost predicate SingleAllAlong(t: Tables, node: Node, txs: seq<TxAt>) {
    && RunTxs(t, node, txs).Ok? && Single(RunTxs(t, node, txs).value)
    && (txs == [] || SingleAllAlong(t, node, txs[..|txs| - 1]))
  }

  /** A run from single holding stays in single holding throughout exactly when every step meets the condition. */
  lemma {:induction false} RunKeepsSingleIff(t: Tables, node: Node, txs: seq<TxAt>)
    requires Inv(t) && Single(t) && FreshRun(t, txs) && RunTxs(t, node, txs).Ok?
    ensures SingleAllAlong(t, node, txs) <==> PlacedAllAlong(t, node, txs)
    decreases |txs|
  {
    hide Inv, Single, StepTx, PlacedOnce, NewOrSpent, PlanTx, FreshTxid;
    if txs != [] {
      var n := |txs| - 1;
      LastStep(t, node, txs);
      FreshRunPrefix(t, txs, n);
      RunStepsFresh(t, node, txs);
      RunKeepsSingleIff(t, node, txs[..n]);
      SingleAtEnd(t, node, txs[..n]);
      if SingleAllAlong(t, node, txs[..n]) {
        SingleKeptIff(RunTxs(t, node, txs[..n]).value, node, txs[n].tx, txs[n].at);
      }
    }
  }

  lemma SingleAtEnd(t: Tables, node: Node, txs: seq<TxAt>)
    ensures SingleAllAlong(t, node, txs) ==> RunTxs(t, node, txs).Ok? && Single(RunTxs(t, node, txs).value)
  {
  }
}
