/** Concrete inputs on which the code does not do what one might expect of it. */
module Examples {
  import opened Prelude
  import opened Spans
  import opened Tokens
  import opened Storage
  import opened TableInvariant
  import opened Transactions
  import opened MixPayload
  import opened Parser
  import opened Ledger
  import opened Accounting
  import opened SingleHolder
  import opened Delivery
  import opened RegisterDigest
  import opened Placement
  import opened Registration
  import opened Rejection
  import Payload
  import MixDigest
  import Ownership = OwnershipPayload

  const GROUP := Group(CollectionKey(0, 0), ZERO_H160)
  const FIVE := Slice(GROUP, 5, 5)
  const TOKEN_FIVE := Token(GROUP, 5)
  const NODE := Node(_ => ZERO_H160, map[7 := [Spendable([])]])
  /** One registered collection and no tokens. */
  const START := Tables(map[CollectionKey(0, 0) := Collection(ZERO_H160, false)], map[], [])

  const ONCE := Ownership.RegisterOwnershipData(0, 0, [[Span(5, 5)]])
  const TWICE := Ownership.RegisterOwnershipData(0, 0, [[Span(5, 5), Span(5, 5)]])

  /** Spends a plain output and carries the message; output 1 can be spent. */
  function RegisterTx(txid: Txid, d: Ownership.RegisterOwnershipData): Tx {
    Tx(txid, [OutPoint(7, 0)],
       [OpReturn([], Some(Payload.EncodePayload(Payload.RegisterOwnership(d)))), Spendable([])])
  }

  /** A state the example registrations start from. */
  ghost predicate Ready(t: Tables) {
    Inv(t) && FreshTxid(t, 7) && CollectionKey(0, 0) in t.collections
  }

  lemma ExampleAccepted(t: Tables, txid: Txid, d: Ownership.RegisterOwnershipData, at: Position)
    requires Ready(t) && (d == ONCE || d == TWICE)
    ensures var tx := RegisterTx(txid, d);
            && TxPayload(tx) == Some(Payload.RegisterOwnership(d)) && Ownership.Valid(d)
            && Accepted(t, NODE, tx, d) && GroupOf(NODE, tx, d) == GROUP
            && StepTx(t, NODE, tx, at).Ok? && TokenInputs(t, tx.inputs) == []
  {
    var tx := RegisterTx(txid, d);
    hide StepTx, TxPayload, Inv, TotalSlots, UnspentRanges, FreshTxid;
    ExampleMessage(txid, d);
    SlotsCounted(d);
    ReadyFresh(t);
    FreshHasNothing(t, OutPoint(7, 0));
    NoTokenInput(t, OutPoint(7, 0));
    assert BaseH160(NODE, tx) == Ok(ZERO_H160);
    StepFailsIff(t, NODE, tx, at);
  }

  lemma ReadyFresh(t: Tables)
    requires Ready(t)
    ensures Inv(t) && FreshTxid(t, OutPoint(7, 0).txid)
  {
  }

  lemma NoTokenInput(t: Tables, op: OutPoint)
    requires UnspentRanges(t, op) == []
    ensures TokenInputs(t, [op]) == []
  {
    assert [op][..0] == [] && TokenInputs(t, []) == [];
  }

  lemma ExampleMessage(txid: Txid, d: Ownership.RegisterOwnershipData)
    requires d == ONCE || d == TWICE
    ensures TxPayload(RegisterTx(txid, d)) == Some(Payload.RegisterOwnership(d))
  {
    SlotsCounted(d);
    Payload.DecodeOfEncode(Payload.RegisterOwnership(d));
  }

  lemma SlotsCounted(d: Ownership.RegisterOwnershipData)
    requires d == ONCE || d == TWICE
    ensures Ownership.Valid(d) && TotalSlots(d.groups) <= 2
  {
    var g := d.groups[0];
    assert d.groups[..0] == [] && g[..0] == [];
    assert SlotsInGroup(g[..1]) == 1 by {
      assert g[..1][..0] == [];
    }
    assert g == if d == ONCE then g[..1] else g[..1] + [Span(5, 5)];
    assert d == TWICE ==> g[..|g| - 1] == g[..1];
  }

  lemma CollapsedTwice()
    ensures AppendNew([], [FIVE]) == [FIVE] && AppendNew([], [FIVE, FIVE]) == [FIVE]
    ensures !Distinct([FIVE, FIVE])
  {
    assert [FIVE][..0] == [] && [FIVE, FIVE][..1] == [FIVE];
    assert [FIVE, FIVE][0] == [FIVE, FIVE][1];
  }

  /** After the registration slot 5 is at output 1, and nothing else changed. */
  lemma ExampleStep(t: Tables, txid: Txid, d: Ownership.RegisterOwnershipData, at: Position)
    returns (t': Tables)
    requires Ready(t) && FreshTxid(t, txid) && txid != 7 && (d == ONCE || d == TWICE)
    ensures StepTx(t, NODE, RegisterTx(txid, d), at) == Ok(t')
    ensures Ready(t') && (forall k | k in t'.utxos :: k in t.utxos || k.outpoint.txid == txid)
    ensures forall op: OutPoint ::
      UnspentRanges(t', op) == if op == OutPoint(txid, 1) then [FIVE] else if op.txid == txid then []
                               else if op == OutPoint(7, 0) then [] else UnspentRanges(t, op)
  {
    var tx := RegisterTx(txid, d);
    ExampleFields(txid, d, OutPoint(7, 0));
    hide StepTx, Inv, RegisterTx, UnspentRanges, Spends, PlanTx;
    ExampleAccepted(t, txid, d, at);
    t' := StepTx(t, NODE, tx, at).value;
    StepKeepsInv(t, NODE, tx, at);
    StepKeepsCollections(t, NODE, tx, at);
    forall op: OutPoint ensures
      UnspentRanges(t', op) == if op == OutPoint(txid, 1) then [FIVE] else if op.txid == txid then []
                               else if op == OutPoint(7, 0) then [] else UnspentRanges(t, op)
    {
      if op.txid == txid {
        ExampleStored(t, txid, d, at, op.vout);
        assert op == OutPoint(txid, op.vout);
      } else {
        ExampleFields(txid, d, op);
        StepEffect(t, NODE, tx, at, op);
      }
    }
  }

  lemma ExampleFields(txid: Txid, d: Ownership.RegisterOwnershipData, op: OutPoint)
    ensures RegisterTx(txid, d).txid == txid && (Spends(RegisterTx(txid, d), op) <==> op == OutPoint(7, 0))
  {
  }

  lemma ExampleStored(t: Tables, txid: Txid, d: Ownership.RegisterOwnershipData, at: Position, v: nat)
    requires Ready(t) && FreshTxid(t, txid) && (d == ONCE || d == TWICE)
    requires StepTx(t, NODE, RegisterTx(txid, d), at).Ok?
    ensures UnspentRanges(StepTx(t, NODE, RegisterTx(txid, d), at).value, OutPoint(txid, v))
         == if v == 1 then [FIVE] else []
  {
    var tx := RegisterTx(txid, d);
    ExampleAccepted(t, txid, d, at);
    CollapsedTwice();
    RegisteredRanges(t, NODE, tx, at, d, v);
    ExampleItems(d);
  }

  lemma ExampleItems(d: Ownership.RegisterOwnershipData)
    requires d == ONCE || d == TWICE
    ensures |d.groups| == 1
    ensures GroupSlices(GROUP, d.groups[0]) == if d == ONCE then [FIVE] else [FIVE, FIVE]
  {
  }

  lemma StepKeepsCollections(t: Tables, node: Node, tx: Tx, at: Position)
    requires Inv(t) && FreshTxid(t, tx.txid) && StepTx(t, node, tx, at).Ok?
    ensures forall c | c in t.collections :: c in StepTx(t, node, tx, at).value.collections
  {
    var plan := PlanTx(t, node, tx).value;
    PreparedFits(t, node, tx, at);
    WritesKeepInv(Prepared(t, tx, at, plan), node, tx, at, plan.writes);
  }

  // ---------------------------------------------------------------------------
  // A registration that repeats an item
  // ---------------------------------------------------------------------------

  lemma StartReady()
    ensures Ready(START) && Single(START) && Inv(START)
    ensures forall u :: FreshTxid(START, u)
    ensures forall op :: UnspentRanges(START, op) == []
  {
    NothingStored(START);
    forall op ensures UnspentRanges(START, op) == [] {
      QueryMeaning(START, op);
    }
  }

  lemma FiveTwice()
    ensures Count(Flatten([FIVE, FIVE]), TOKEN_FIVE) == 2
  {
    assert [FIVE, FIVE][..1] == [FIVE] && [FIVE][..0] == [];
    FlattenPush([FIVE], FIVE);
    FlattenPush([], FIVE);
    assert [] + [FIVE] == [FIVE] && [FIVE] + [FIVE] == [FIVE, FIVE];
    CountConcat(Run(FIVE), Run(FIVE), TOKEN_FIVE);
    RunCount(FIVE, TOKEN_FIVE);
    assert Flatten([]) + Run(FIVE) == Run(FIVE);
  }

  /**
    A registration that lists slot 5 twice in one group: two ranges are written, one is stored, and
    holders stay single although the registration names a slot twice.
    */
  lemma RepeatedItemCollapses(at: Position) returns (t': Tables)
    ensures StepTx(START, NODE, RegisterTx(1, TWICE), at) == Ok(t')
    ensures WrittenAt(PlanTx(START, NODE, RegisterTx(1, TWICE)).value.writes, 1) == [FIVE, FIVE]
    ensures UnspentRanges(t', OutPoint(1, 1)) == [FIVE]
    ensures Single(START) && Single(t') && !NewRegistration(START, NODE, RegisterTx(1, TWICE))
  {
    var tx := RegisterTx(1, TWICE);
    StartReady();
    t' := ExampleStep(START, 1, TWICE, at);
    RepeatedItemPlan(at);
    RepeatedItemSingle(at);
    RepeatedItemNotNew(at);
  }

  lemma RepeatedItemPlan(at: Position)
    ensures StepTx(START, NODE, RegisterTx(1, TWICE), at).Ok?
    ensures WrittenAt(PlanTx(START, NODE, RegisterTx(1, TWICE)).value.writes, 1) == [FIVE, FIVE]
  {
    var tx := RegisterTx(1, TWICE);
    StartReady();
    ExampleAccepted(START, 1, TWICE, at);
    RegisterPlan(START, NODE, tx, TWICE);
    assert RegisterPart(START, NODE, tx) + Transfers(NODE, tx, []) == RegisterPart(START, NODE, tx);
    RegisteredAt(START, NODE, tx, TWICE, 1);
    ExampleItems(TWICE);
  }

  lemma RepeatedItemSingle(at: Position)
    ensures StepTx(START, NODE, RegisterTx(1, TWICE), at).Ok?
    ensures Single(StepTx(START, NODE, RegisterTx(1, TWICE), at).value)
  {
    var tx := RegisterTx(1, TWICE);
    StartReady();
    ExampleAccepted(START, 1, TWICE, at);
    assert FreshTxid(START, tx.txid);
    RepeatedItemApart(tx);
    hide Single, StepTx, Inv, TokenInputs, RegisterTx, ItemsApart, InputsApart, ItemsMeetInputs, HoldersSpent, Accepted,
      TxPayload, BaseH160;
    RegistrationKeepsSingleIff(START, NODE, tx, at, TWICE);
  }

  lemma RepeatedItemApart(tx: Tx)
    requires TokenInputs(START, tx.inputs) == []
    ensures ItemsApart(TWICE.groups) && InputsApart(START, tx)
    ensures ItemsMeetInputs(START, tx, GROUP, TWICE.groups) && HoldersSpent(START, tx, GROUP, TWICE.groups)
  {
    StartReady();
    forall op, x ensures !HeldAt(START, op, x) {
      assert UnspentRanges(START, op) == [];
    }
  }

  lemma RepeatedItemNotNew(at: Position)
    ensures !NewRegistration(START, NODE, RegisterTx(1, TWICE))
  {
    var tx := RegisterTx(1, TWICE);
    var part := RegisterPart(START, NODE, tx);
    StartReady();
    ExampleAccepted(START, 1, TWICE, at);
    RegisteredAt(START, NODE, tx, TWICE, 1);
    ExampleItems(TWICE);
    FiveTwice();
    RegistersItems(START, NODE, tx, TWICE, TOKEN_FIVE);
    assert Contains(TWICE.groups[0][0], 1, 5) && NamesSlot(TWICE.groups[0], 5);
    WrittenAtCount(part, 1, 1, TOKEN_FIVE);
  }

  // ---------------------------------------------------------------------------
  // Two registrations of one slot, and what a transfer makes of them
  // ---------------------------------------------------------------------------

  lemma TwoSteps(t: Tables, node: Node, a: TxAt, b: TxAt)
    requires StepTx(t, node, a.tx, a.at).Ok?
    ensures RunTxs(t, node, [a, b]) == StepTx(StepTx(t, node, a.tx, a.at).value, node, b.tx, b.at)
  {
    hide StepTx;
    assert [a, b][..1] == [a] && [a][..0] == [];
    assert RunTxs(t, node, []) == Ok(t);
    assert RunTxs(t, node, [a]) == StepTx(t, node, a.tx, a.at);
  }

  lemma FreshLater(t: Tables, t': Tables, txid: Txid, u: Txid)
    requires FreshTxid(t, u) && u != txid
    requires forall k | k in t'.utxos :: k in t.utxos || k.outpoint.txid == txid
    ensures FreshTxid(t', u)
  {
  }

  /** The tables after both registrations: slot 5 is at (1, 1) and at (2, 1). */
  lemma TwoRegistrations(first: Position, second: Position) returns (t2: Tables)
    ensures RunTxs(START, NODE, [TxAt(RegisterTx(1, ONCE), first), TxAt(RegisterTx(2, ONCE), second)]) == Ok(t2)
    ensures Ready(t2) && FreshTxid(t2, 3)
    ensures UnspentRanges(t2, OutPoint(1, 1)) == [FIVE] && UnspentRanges(t2, OutPoint(2, 1)) == [FIVE]
  {
    hide *;
    StartReady();
    var t1 := ExampleStep(START, 1, ONCE, first);
    FreshLater(START, t1, 1, 2);
    FreshLater(START, t1, 1, 3);
    t2 := ExampleStep(t1, 2, ONCE, second);
    FreshLater(t1, t2, 2, 3);
    TwoSteps(START, NODE, TxAt(RegisterTx(1, ONCE), first), TxAt(RegisterTx(2, ONCE), second));
  }

  lemma FiveHeld(t: Tables, op: OutPoint)
    requires UnspentRanges(t, op) == [FIVE]
    ensures HeldAt(t, op, TOKEN_FIVE) && |TokensAt(t, op)| == 1
  {
    assert [FIVE][..0] == [];
    assert Flatten([FIVE]) == Run(FIVE) == [TOKEN_FIVE];
  }

  lemma ExampleRunFresh(first: Position, second: Position)
    ensures FreshRun(START, [TxAt(RegisterTx(1, ONCE), first), TxAt(RegisterTx(2, ONCE), second)])
  {
    hide TokenInputs;
  }

  /** From single holding, two ordinary registrations of the same slot lead to two holders. */
  lemma SlotRegisteredTwice(first: Position, second: Position)
    ensures Inv(START) && Single(START)
    ensures var txs := [TxAt(RegisterTx(1, ONCE), first), TxAt(RegisterTx(2, ONCE), second)];
            && FreshRun(START, txs) && RunTxs(START, NODE, txs).Ok?
            && !Single(RunTxs(START, NODE, txs).value)
  {
    ExampleRunFresh(first, second);
    hide Inv, FreshRun, RunTxs, RegisterTx, HeldAt, Ready;
    StartReady();
    var t2 := TwoRegistrations(first, second);
    FiveHeld(t2, OutPoint(1, 1));
    FiveHeld(t2, OutPoint(2, 1));
  }

  /** Spends both holders of slot 5 into one output. */
  const MERGE := Tx(3, [OutPoint(1, 1), OutPoint(2, 1)], [Spendable([])])

  /** An implicit transfer of two identical ranges to one output: two are written, one is stored. */
  lemma IdenticalRangesCollapse(first: Position, second: Position, at: Position) returns (t2: Tables)
    ensures RunTxs(START, NODE, [TxAt(RegisterTx(1, ONCE), first), TxAt(RegisterTx(2, ONCE), second)]) == Ok(t2)
    ensures StepTx(t2, NODE, MERGE, at).Ok?
    ensures WrittenAt(PlanTx(t2, NODE, MERGE).value.writes, 0) == [FIVE, FIVE]
    ensures UnspentRanges(StepTx(t2, NODE, MERGE, at).value, OutPoint(3, 0)) == [FIVE]
  {
    t2 := TwoRegistrations(first, second);
    MergeWrites(t2, at);
    CollapsedTwice();
    StepEffect(t2, NODE, MERGE, at, OutPoint(3, 0));
  }

  lemma MergeWrites(t: Tables, at: Position)
    requires UnspentRanges(t, OutPoint(1, 1)) == [FIVE] && UnspentRanges(t, OutPoint(2, 1)) == [FIVE]
    ensures StepTx(t, NODE, MERGE, at).Ok?
    ensures WrittenAt(PlanTx(t, NODE, MERGE).value.writes, 0) == [FIVE, FIVE]
  {
    hide *;
    MergeMoves(t, at);
    ImplicitPlan(t, NODE, MERGE);
    MergeInputs(t);
    MergeOutputs();
    MoveWrites(NODE, MERGE, TokenInputs(t, MERGE.inputs), 0);
    MergeDue();
    CoalesceFive();
  }

  lemma MergeMoves(t: Tables, at: Position)
    ensures MovesImplicitly(MERGE, TxPayload(MERGE)) && PlanTx(t, NODE, MERGE).Ok? && StepTx(t, NODE, MERGE, at).Ok?
  {
    assert TxPayload(MERGE) == None;
    StepFailsIff(t, NODE, MERGE, at);
  }

  lemma MergeOutputs()
    ensures SpendableOutputs(MERGE.outputs) == [0]
  {
    assert MERGE.outputs[..0] == [] && SpendableOutputs([]) == [];
  }

  lemma MergeDue()
    ensures var inputs := [TokenInput(OutPoint(1, 1), [FIVE]), TokenInput(OutPoint(2, 1), [FIVE])];
            Due(inputs, 0, 1) == inputs
  {
  }

  lemma MergeInputs(t: Tables)
    requires UnspentRanges(t, OutPoint(1, 1)) == [FIVE] && UnspentRanges(t, OutPoint(2, 1)) == [FIVE]
    ensures TokenInputs(t, MERGE.inputs) == [TokenInput(OutPoint(1, 1), [FIVE]), TokenInput(OutPoint(2, 1), [FIVE])]
  {
    var ins := MERGE.inputs;
    assert ins[..1] == [OutPoint(1, 1)] && ins[..1][..0] == [];
    assert TokenInputs(t, ins[..1]) == [TokenInput(OutPoint(1, 1), [FIVE])];
  }

  lemma CoalesceFive()
    ensures CoalescedEach([TokenInput(OutPoint(1, 1), [FIVE]), TokenInput(OutPoint(2, 1), [FIVE])]) == [FIVE, FIVE]
  {
    assert [FIVE][..0] == [] && Coalesce([]) == [];
    assert Coalesce([FIVE]) == [FIVE];
    CoalescedEachPush([], TokenInput(OutPoint(1, 1), [FIVE]));
    CoalescedEachPush([TokenInput(OutPoint(1, 1), [FIVE])], TokenInput(OutPoint(2, 1), [FIVE]));
    assert [] + [TokenInput(OutPoint(1, 1), [FIVE])] == [TokenInput(OutPoint(1, 1), [FIVE])];
  }

  // ---------------------------------------------------------------------------
  // A mix that asks for more than there is
  // ---------------------------------------------------------------------------

  /** Index 1 for the first output, the rest for the second. */
  const TOO_FAR := MixData([[Span(1, 2)], []], 1)

  /** Spends the one token at (1, 1). */
  function TooFarTx(): Tx {
    Tx(3, [OutPoint(1, 1)],
       [OpReturn([], Some(Payload.EncodePayload(Payload.Mix(TOO_FAR)))), Spendable([]), Spendable([])])
  }

  lemma TooFarValid()
    ensures ValidBasic(TOO_FAR) && FitsMemory(TOO_FAR) && Asks(TOO_FAR, 0, 1)
    ensures TxPayload(TooFarTx()) == Some(Payload.Mix(TOO_FAR))
  {
    assert ExplicitUpTo(TOO_FAR, 1) == Tagged([Span(1, 2)], 0);
    assert |Explicit(TOO_FAR)| == 1;
    assert Contains(TOO_FAR.outputRanges[0][0], 0, 1);
    Payload.DecodeOfEncode(Payload.Mix(TOO_FAR));
  }

  lemma OneInput(t: Tables, op: OutPoint)
    requires UnspentRanges(t, op) == [FIVE] && op != NULL_OUTPOINT
    ensures TokenInputs(t, [op]) == [TokenInput(op, [FIVE])]
    ensures AllRanges(TokenInputs(t, [op])) == [FIVE]
  {
    assert [op][..0] == [] && TokenInputs(t, []) == [];
    var input := TokenInput(op, [FIVE]);
    assert [input][..0] == [] && AllRanges([]) == [];
  }

  lemma TooFarFields()
    ensures TooFarTx().txid == 3 && TooFarTx().inputs == [OutPoint(1, 1)] && Spends(TooFarTx(), OutPoint(1, 1))
    ensures OutPoint(1, 1) != NULL_OUTPOINT
  {
  }

  lemma ShortOfTokens(t: Tables, tx: Tx, d: MixData, i: nat)
    requires TxPayload(tx) == Some(Payload.Mix(d)) && 0 != d.complementIndex && Asks(d, 0, i)
    requires RangesSound(t) && |AllRanges(TokenInputs(t, tx.inputs))| <= U32_MAX
    requires i >= |Flatten(AllRanges(TokenInputs(t, tx.inputs)))|
    ensures RejectedMix(t, tx)
  {
    hide RejectedMix, TxPayload, TokenInputs, AllRanges, Flatten, Asks, RangesSound, MixDigest.Countable, SpentTokens;
    UsuallyCountable(t, tx);
    IndexedTokens(t, tx.inputs);
    RejectedMixIff(t, tx, d);
  }

  lemma TooFarRejected(t: Tables, at: Position)
    requires RangesSound(t) && UnspentRanges(t, OutPoint(1, 1)) == [FIVE]
    ensures RejectedMix(t, TooFarTx()) && StepTx(t, NODE, TooFarTx(), at).Ok?
  {
    var tx := TooFarTx();
    assert TOO_FAR.complementIndex == 1 && TokensAt(t, OutPoint(1, 1)) == Flatten(UnspentRanges(t, OutPoint(1, 1)));
    hide *;
    TooFarValid();
    TooFarFields();
    OneInput(t, OutPoint(1, 1));
    FiveHeld(t, OutPoint(1, 1));
    ShortOfTokens(t, tx, TOO_FAR, 1);
    RejectedSteps(t, tx, at);
  }

  lemma RejectedSteps(t: Tables, tx: Tx, at: Position)
    requires RejectedMix(t, tx)
    ensures StepTx(t, NODE, tx, at).Ok?
  {
    hide MixDigest.MixOutcome, TokenInputs, TokensFirst;
  }

  lemma NothingAt(t: Tables, op: OutPoint, x: Token)
    requires UnspentRanges(t, op) == []
    ensures !HeldAt(t, op, x)
  {
  }

  lemma HeldSomewhere(t: Tables, op: OutPoint, x: Token)
    requires HeldAt(t, op, x)
    ensures Held(t, x)
  {
  }

  lemma ReadyIsInv(t: Tables)
    requires Ready(t)
    ensures Inv(t) && RangesSound(t)
  {
  }

  /** Slot 5 is held; a mix spends it and asks for index 1 of one token; afterwards nobody holds slot 5. */
  lemma RejectedMixLosesToken(first: Position, at: Position) returns (t1: Tables)
    ensures StepTx(START, NODE, RegisterTx(1, ONCE), first) == Ok(t1)
    ensures Held(t1, TOKEN_FIVE)
    ensures TxPayload(TooFarTx()) == Some(Payload.Mix(TOO_FAR)) && RejectedMix(t1, TooFarTx())
    ensures StepTx(t1, NODE, TooFarTx(), at).Ok?
    ensures !Held(StepTx(t1, NODE, TooFarTx(), at).value, TOKEN_FIVE)
  {
    hide *;
    StartReady();
    t1 := ExampleStep(START, 1, ONCE, first);
    FreshLater(START, t1, 1, 3);
    ReadyIsInv(t1);
    FiveHeld(t1, OutPoint(1, 1));
    HeldSomewhere(t1, OutPoint(1, 1), TOKEN_FIVE);
    TooFarValid();
    TooFarFields();
    TooFarRejected(t1, at);
    RejectedMixForfeits(t1, NODE, TooFarTx(), at, TOKEN_FIVE);
    forall op | op != OutPoint(1, 1) ensures !HeldAt(t1, op, TOKEN_FIVE) {
      NothingAt(t1, op, TOKEN_FIVE);
    }
  }

  // ---------------------------------------------------------------------------
  // A mix with a plain input before the token input
  // ---------------------------------------------------------------------------

  /** Index 0 for the first output, the rest for the second: fine for one token, but for the inputs. */
  const FIRST_ONLY := MixData([[Span(0, 1)], []], 1)

  function PlainFirstTx(): Tx {
    Tx(3, [OutPoint(7, 0), OutPoint(1, 1)],
       [OpReturn([], Some(Payload.EncodePayload(Payload.Mix(FIRST_ONLY)))), Spendable([]), Spendable([])])
  }

  lemma FirstOnlyValid()
    ensures ValidBasic(FIRST_ONLY) && FitsMemory(FIRST_ONLY)
    ensures TxPayload(PlainFirstTx()) == Some(Payload.Mix(FIRST_ONLY))
  {
    assert ExplicitUpTo(FIRST_ONLY, 1) == Tagged([Span(0, 1)], 0);
    assert |Explicit(FIRST_ONLY)| == 1;
    Payload.DecodeOfEncode(Payload.Mix(FIRST_ONLY));
  }

  lemma PlainIsFirst(t: Tables)
    requires UnspentRanges(t, OutPoint(7, 0)) == [] && UnspentRanges(t, OutPoint(1, 1)) == [FIVE]
    ensures PlainFirstTx().txid == 3 && OutPoint(1, 1) in PlainFirstTx().inputs && OutPoint(1, 1) != NULL_OUTPOINT
    ensures PlainBeforeToken(t, PlainFirstTx())
  {
    hide UnspentRanges;
    var tx := PlainFirstTx();
    assert tx.inputs[0] == OutPoint(7, 0) && tx.inputs[1] == OutPoint(1, 1);
    assert OutPoint(1, 1) in tx.inputs;
    assert tx.inputs[0] != NULL_OUTPOINT && UnspentRanges(t, tx.inputs[0]) == [];
    assert tx.inputs[1] != NULL_OUTPOINT && UnspentRanges(t, tx.inputs[1]) != [];
  }

  /** Slot 5 is held; a mix spends a plain output and then the holder; afterwards nobody holds slot 5. */
  lemma PlainInputFirstLosesToken(first: Position, at: Position) returns (t1: Tables)
    ensures StepTx(START, NODE, RegisterTx(1, ONCE), first) == Ok(t1)
    ensures Held(t1, TOKEN_FIVE) && TxPayload(PlainFirstTx()) == Some(Payload.Mix(FIRST_ONLY))
    ensures StepTx(t1, NODE, PlainFirstTx(), at).Ok?
    ensures !Held(StepTx(t1, NODE, PlainFirstTx(), at).value, TOKEN_FIVE)
  {
    hide *;
    StartReady();
    t1 := ExampleStep(START, 1, ONCE, first);
    FreshLater(START, t1, 1, 3);
    ReadyIsInv(t1);
    FiveHeld(t1, OutPoint(1, 1));
    HeldSomewhere(t1, OutPoint(1, 1), TOKEN_FIVE);
    FirstOnlyValid();
    PlainIsFirst(t1);
    forall op | HeldAt(t1, op, TOKEN_FIVE) ensures op != NULL_OUTPOINT && op in PlainFirstTx().inputs {
      if op != OutPoint(1, 1) {
        NothingAt(t1, op, TOKEN_FIVE);
      }
    }
    BadlyPlacedMixForfeits(t1, NODE, PlainFirstTx(), at, FIRST_ONLY, TOKEN_FIVE);
  }

  // ---------------------------------------------------------------------------
  // One output behind the message
  // ---------------------------------------------------------------------------

  /** Output 0 is an OP_RETURN without a message, output 1 can be spent. */
  const MOVE := Tx(3, [OutPoint(1, 1)], [OpReturn([], None), Spendable([])])

  /** Slot 5 moves to output 1; it is not burnt. */
  lemma MovesBehindOpReturn(t: Tables, at: Position)
    requires Inv(t) && FreshTxid(t, 3) && UnspentRanges(t, OutPoint(1, 1)) == [FIVE]
    ensures StepTx(t, NODE, MOVE, at).Ok?
    ensures HeldAt(StepTx(t, NODE, MOVE, at).value, OutPoint(3, 1), TOKEN_FIVE)
  {
    assert TxPayload(MOVE) == None && MOVE.txid == 3 && MOVE.inputs == [OutPoint(1, 1)];
    StepFailsIff(t, NODE, MOVE, at);
    OneInput(t, OutPoint(1, 1));
    FiveHeld(t, OutPoint(1, 1));
    MoveIsDue(t);
    hide Inv, StepTx, TxPayload, DueAt, UnspentRanges, TokenInputs;
    TransferReaches(t, NODE, MOVE, at, 1, TOKEN_FIVE);
  }

  lemma NothingPayableBefore()
    ensures |MOVE.outputs| == 2 && CountPayable(MOVE.outputs[..1]) == 0
  {
    var before := MOVE.outputs[..1];
    assert before == [OpReturn([], None)] && before[..0] == [];
    assert CountPayable(before[..0]) == 0;
  }

  lemma MoveIsDue(t: Tables)
    requires UnspentRanges(t, OutPoint(1, 1)) == [FIVE]
    ensures |MOVE.outputs| == 2
    ensures DueAt(TokenInputs(t, MOVE.inputs), MOVE.outputs, 1) == TokenInputs(t, MOVE.inputs)
    ensures TOKEN_FIVE in Flatten(AllRanges(TokenInputs(t, MOVE.inputs)))
  {
    MoveInputs();
    FiveFlattened();
    hide TokenInputs, AllRanges, Flatten, UnspentRanges, CountPayable, LastPayable, Run;
    OneInput(t, OutPoint(1, 1));
    NothingPayableBefore();
    OneDue(TokenInputs(t, MOVE.inputs), MOVE.outputs);
  }

  lemma MoveInputs()
    ensures MOVE.inputs == [OutPoint(1, 1)] && OutPoint(1, 1) != NULL_OUTPOINT
  {
  }

  lemma OneDue(inputs: seq<TokenInput>, outputs: seq<Script>)
    requires |inputs| == 1 && |outputs| == 2 && CountPayable(outputs[..1]) == 0
    ensures DueAt(inputs, outputs, 1) == inputs
  {
    hide CountPayable;
    assert inputs[0..] == inputs && [inputs[0]] == inputs;
  }

  lemma FiveFlattened()
    ensures TOKEN_FIVE in Flatten([FIVE])
  {
    assert [FIVE][..0] == [];
    assert Flatten([FIVE]) == Run(FIVE) == [TOKEN_FIVE];
  }
}
