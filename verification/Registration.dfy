/**
  Registrations, in terms of the message: which slots end at which output, and exactly when single
  holding survives.
  */
module Registration {
  import opened Prelude
  import opened Spans
  import opened Tokens
  import opened Storage
  import opened TableInvariant
  import opened Transactions
  import opened Writes
  import opened Parser
  import opened Ledger
  import opened Accounting
  import opened SingleHolder
  import opened RegisterDigest
  import opened Delivery
  import opened Placement
  import Payload
  import Ownership = OwnershipPayload

  // ---------------------------------------------------------------------------
  // What a registration registers
  // ---------------------------------------------------------------------------

  /** The checks that decide whether anything is registered. */
  predicate Accepted(t: Tables, node: Node, tx: Tx, d: Ownership.RegisterOwnershipData)
    requires Ownership.Valid(d)
  {
    && |d.groups| < |tx.outputs|
    && CollectionOf(d) in t.collections && BaseH160(node, tx).Ok?
    && TotalSlots(d.groups) <= MAX_REGISTERED_TOKENS_PER_TX
  }

  /** The group of tokens the message registers: its collection, based at the script input 0 spends. */
  function GroupOf(node: Node, tx: Tx, d: Ownership.RegisterOwnershipData): Group
    requires BaseH160(node, tx).Ok?
  {
    Group(CollectionOf(d), BaseH160(node, tx).value)
  }

  predicate NamesSlot(g: Ownership.OwnershipGroup, slot: nat) {
    exists i | 0 <= i < |g| :: Contains(g[i], 1, slot)
  }

  lemma GroupTokens(group: Group, g: Ownership.OwnershipGroup, x: Token)
    ensures x in Flatten(GroupSlices(group, g)) <==> x.group == group && NamesSlot(g, x.slot)
  {
    var slices := GroupSlices(group, g);
    FlattenCovers(slices, x);
    if i :| 0 <= i < |slices| && Covers(slices[i], x) {
      assert Contains(g[i], 1, x.slot);
    }
    if x.group == group && NamesSlot(g, x.slot) {
      var i :| 0 <= i < |g| && Contains(g[i], 1, x.slot);
      assert Covers(slices[i], x);
    }
  }

  lemma PartIs(t: Tables, node: Node, tx: Tx, d: Ownership.RegisterOwnershipData)
    requires TxPayload(tx) == Some(Payload.RegisterOwnership(d))
    ensures Ownership.Valid(d)
    ensures RegisterPart(t, node, tx)
         == if Accepted(t, node, tx, d) then RegisterWrites(node, tx, GroupOf(node, tx, d), d.groups) else []
  {
    PayloadValid(tx);
  }

  /** The output whose script gives the base: the one input 0 spends, as the node knows it. */
  ghost predicate BaseKnown(node: Node, tx: Tx) {
    && tx.inputs != [] && tx.inputs[0] != NULL_OUTPOINT
    && tx.inputs[0].txid in node.raw && tx.inputs[0].vout < |node.raw[tx.inputs[0].txid]|
  }

  /**
    What acceptance and the group come to: the collection is the one the message names by height and index,
    the base is the hash of the very script input 0 spends, and at most 1,000,000 slots are named.
    */
  lemma AcceptedMeaning(t: Tables, node: Node, tx: Tx, d: Ownership.RegisterOwnershipData)
    requires Ownership.Valid(d)
    ensures Accepted(t, node, tx, d)
      <==> && |d.groups| < |tx.outputs| && BaseKnown(node, tx)
           && CollectionKey(d.collectionHeight, d.collectionTxIndex) in t.collections
           && TotalSlots(d.groups) <= 1_000_000
    ensures Accepted(t, node, tx, d) ==>
      GroupOf(node, tx, d)
      == Group(CollectionKey(d.collectionHeight, d.collectionTxIndex),
               node.hash160(node.raw[tx.inputs[0].txid][tx.inputs[0].vout].bytes))
  {
    hide TotalSlots;
  }

  lemma RegistersItems(t: Tables, node: Node, tx: Tx, d: Ownership.RegisterOwnershipData, x: Token)
    requires TxPayload(tx) == Some(Payload.RegisterOwnership(d))
    ensures Ownership.Valid(d)
    ensures Registers(t, node, tx, x)
      <==> && Accepted(t, node, tx, d) && x.group == GroupOf(node, tx, d)
           && exists k :: 0 <= k < |d.groups| && NamesSlot(d.groups[k], x.slot)
  {
    PartIs(t, node, tx, d);
    if Accepted(t, node, tx, d) {
      var group := GroupOf(node, tx, d);
      var ws := RegisterWrites(node, tx, group, d.groups);
      if w :| w in ws && x in Flatten(w.slices) {
        var k :| 0 <= k < |ws| && ws[k] == w;
        GroupTokens(group, d.groups[k], x);
      }
      if k :| 0 <= k < |d.groups| && NamesSlot(d.groups[k], x.slot) && x.group == group {
        GroupTokens(group, d.groups[k], x);
        assert ws[k] in ws;
      }
    }
  }

  /**
    A token is registered exactly when the named collection is registered, the script input 0 spends is
    known and gives the base, at most 1,000,000 slots are named, and some item of some group names its slot.
    */
  lemma RegistersMeaning(t: Tables, node: Node, tx: Tx, d: Ownership.RegisterOwnershipData, x: Token)
    requires TxPayload(tx) == Some(Payload.RegisterOwnership(d))
    ensures Ownership.Valid(d)
    ensures Registers(t, node, tx, x)
      <==> && |d.groups| < |tx.outputs| && BaseKnown(node, tx)
           && CollectionKey(d.collectionHeight, d.collectionTxIndex) in t.collections
           && TotalSlots(d.groups) <= 1_000_000
           && x.group == Group(CollectionKey(d.collectionHeight, d.collectionTxIndex),
                               node.hash160(node.raw[tx.inputs[0].txid][tx.inputs[0].vout].bytes))
           && exists k, i ::
                0 <= k < |d.groups| && 0 <= i < |d.groups[k]|
                && d.groups[k][i].start <= x.slot <= d.groups[k][i].end
  {
    RegistersItems(t, node, tx, d, x);
    AcceptedMeaning(t, node, tx, d);
    hide Accepted, BaseKnown, Registers, GroupOf, TotalSlots;
    NamedByItem(d.groups, x.slot);
  }

  lemma NamedByItem(gs: seq<Ownership.OwnershipGroup>, slot: nat)
    ensures (exists k :: 0 <= k < |gs| && NamesSlot(gs[k], slot))
      <==> exists k, i :: 0 <= k < |gs| && 0 <= i < |gs[k]| && gs[k][i].start <= slot <= gs[k][i].end
  {
    if k :| 0 <= k < |gs| && NamesSlot(gs[k], slot) {
      var i :| 0 <= i < |gs[k]| && Contains(gs[k][i], 1, slot);
      assert gs[k][i].start <= slot <= gs[k][i].end;
    }
    if k, i :| 0 <= k < |gs| && 0 <= i < |gs[k]| && gs[k][i].start <= slot <= gs[k][i].end {
      assert Contains(gs[k][i], 1, slot);
      assert NamesSlot(gs[k], slot);
    }
  }

  /** Every registered token belongs to the named collection and to the script that input 0 spends. */
  lemma RegisteredGroup(t: Tables, node: Node, tx: Tx, d: Ownership.RegisterOwnershipData, x: Token)
    requires TxPayload(tx) == Some(Payload.RegisterOwnership(d)) && Registers(t, node, tx, x)
    ensures BaseKnown(node, tx)
    ensures x.group
         == Group(CollectionKey(d.collectionHeight, d.collectionTxIndex),
                  node.hash160(node.raw[tx.inputs[0].txid][tx.inputs[0].vout].bytes))
  {
    RegistersMeaning(t, node, tx, d, x);
  }

  // ---------------------------------------------------------------------------
  // The items of a group, and how many tokens they are
  // ---------------------------------------------------------------------------

  /** The ranges of a group, item by item, in the order of the message. */
  lemma ItemsInOrder(group: Group, g: Ownership.OwnershipGroup, i: nat)
    requires i < |g|
    ensures |GroupSlices(group, g)| == |g|
    ensures GroupSlices(group, g)[i] == Slice(group, g[i].start, g[i].end)
  {
  }

  lemma UnconsLast(g: Ownership.OwnershipGroup) returns (init: Ownership.OwnershipGroup, last: Ownership.SlotRange)
    requires g != [] && Ownership.WfGroup(g)
    ensures g == init + [last] && |init| + 1 == |g| && Ownership.WfGroup(init) && Ownership.WfSlots(last)
    ensures SlotsInGroup(g) == SlotsInGroup(init) + (last.end - last.start + 1)
  {
    init, last := g[..|g| - 1], g[|g| - 1];
  }

  lemma GroupSlicesPush(group: Group, init: Ownership.OwnershipGroup, last: Ownership.SlotRange)
    ensures GroupSlices(group, init + [last]) == GroupSlices(group, init) + [Slice(group, last.start, last.end)]
  {
  }

  /** The slots counted against the limit are the tokens the items stand for. */
  lemma {:induction false} SlotsAreTokens(group: Group, g: Ownership.OwnershipGroup)
    requires Ownership.WfGroup(g)
    ensures SlotsInGroup(g) == |Flatten(GroupSlices(group, g))|
    decreases |g|
  {
    if g != [] {
      hide SlotsInGroup, GroupSlices, Flatten;
      var init, last := UnconsLast(g);
      SlotsAreTokens(group, init);
      GroupSlicesPush(group, init, last);
      FlattenPush(GroupSlices(group, init), Slice(group, last.start, last.end));
    }
  }

  /** All tokens of all groups, group after group. */
  function AllItems(group: Group, gs: seq<Ownership.OwnershipGroup>): seq<Token> {
    if gs == [] then []
    else AllItems(group, gs[..|gs| - 1]) + Flatten(GroupSlices(group, gs[|gs| - 1]))
  }

  lemma {:induction false} TotalIsTokens(group: Group, gs: seq<Ownership.OwnershipGroup>)
    requires forall k | 0 <= k < |gs| :: Ownership.WfGroup(gs[k])
    ensures TotalSlots(gs) == |AllItems(group, gs)|
    decreases |gs|
  {
    if gs != [] {
      TotalIsTokens(group, gs[..|gs| - 1]);
      SlotsAreTokens(group, gs[|gs| - 1]);
    }
  }

  /** A message of 1,000,000 slots is within the limit, one of 1,000,001 is not. */
  lemma LimitExact(n: nat)
    requires n < TWO_96
    ensures var gs := [[Span(0, n)]];
            Ownership.WfGroup(gs[0]) && (TotalSlots(gs) <= MAX_REGISTERED_TOKENS_PER_TX <==> n + 1 <= 1_000_000)
  {
    var g: Ownership.OwnershipGroup := [Span(0, n)];
    var gs := [g];
    assert g[..0] == [] && gs[..0] == [];
    assert SlotsInGroup(g) == n + 1 && TotalSlots(gs) == n + 1;
  }

  lemma NextRegisterWrite(node: Node, tx: Tx, group: Group, groups: seq<Ownership.OwnershipGroup>, k: nat)
    returns (w: Write)
    requires k < |groups| < |tx.outputs|
    ensures var ws := RegisterWrites(node, tx, group, groups);
            |ws| == |groups| && ws[..k + 1] == ws[..k] + [w]
    ensures w.vout == k + 1 && w.slices == GroupSlices(group, groups[k])
  {
    w := RegisterWrites(node, tx, group, groups)[k];
  }

  lemma NoRegisterWrites(node: Node, tx: Tx, group: Group, groups: seq<Ownership.OwnershipGroup>, v: nat)
    requires |groups| < |tx.outputs|
    ensures WrittenAt(RegisterWrites(node, tx, group, groups)[..0], v) == []
  {
  }

  lemma {:induction false} RegisterWrittenAt(
    node: Node, tx: Tx, group: Group, groups: seq<Ownership.OwnershipGroup>, m: nat, v: nat)
    requires m <= |groups| < |tx.outputs|
    ensures m <= |RegisterWrites(node, tx, group, groups)|
    ensures WrittenAt(RegisterWrites(node, tx, group, groups)[..m], v)
         == if 1 <= v <= m then GroupSlices(group, groups[v - 1]) else []
    decreases m
  {
    hide *;
    if m == 0 {
      NoRegisterWrites(node, tx, group, groups, v);
    } else {
      RegisterWrittenAt(node, tx, group, groups, m - 1, v);
      var w := NextRegisterWrite(node, tx, group, groups, m - 1);
      WrittenAtPush(RegisterWrites(node, tx, group, groups)[..m - 1], w, v);
      assert [] + w.slices == w.slices;
    }
  }

  /** What a registration gives to output `v` on its own account: the items of group `v - 1`, or nothing at all. */
  function Items(t: Tables, node: Node, tx: Tx, d: Ownership.RegisterOwnershipData, v: nat): seq<Slice>
    requires Ownership.Valid(d)
  {
    if Accepted(t, node, tx, d) && 1 <= v <= |d.groups|
    then GroupSlices(GroupOf(node, tx, d), d.groups[v - 1]) else []
  }

  lemma RegisteredAt(t: Tables, node: Node, tx: Tx, d: Ownership.RegisterOwnershipData, v: nat)
    requires TxPayload(tx) == Some(Payload.RegisterOwnership(d))
    ensures Ownership.Valid(d)
    ensures WrittenAt(RegisterPart(t, node, tx), v) == Items(t, node, tx, d, v)
  {
    PartIs(t, node, tx, d);
    if Accepted(t, node, tx, d) {
      var ws := RegisterWrites(node, tx, GroupOf(node, tx, d), d.groups);
      RegisterWrittenAt(node, tx, GroupOf(node, tx, d), d.groups, |d.groups|, v);
      assert ws[..|d.groups|] == ws;
    }
  }

  lemma {:induction false} WrittenAtConcat(ws: seq<Write>, vs: seq<Write>, v: nat)
    ensures WrittenAt(ws + vs, v) == WrittenAt(ws, v) + WrittenAt(vs, v)
    decreases |vs|
  {
    if vs == [] {
      assert ws + vs == ws && WrittenAt(ws, v) + [] == WrittenAt(ws, v);
    } else {
      hide WrittenAt;
      var init, w := SplitWrites(vs);
      WrittenAtConcat(ws, init, v);
      WrittenAtPush(init, w, v);
      WrittenAtPush(ws + init, w, v);
      WritesAssoc(ws, init, w);
      SlicesAssoc(WrittenAt(ws, v), WrittenAt(init, v), w.slices);
    }
  }

  lemma RegisterPlan(t: Tables, node: Node, tx: Tx, d: Ownership.RegisterOwnershipData)
    requires PlanTx(t, node, tx).Ok? && TxPayload(tx) == Some(Payload.RegisterOwnership(d))
    ensures PlanTx(t, node, tx).value.writes
         == RegisterPart(t, node, tx) + Transfers(node, tx, TokenInputs(t, tx.inputs))
    ensures |d.groups| < |tx.outputs|
  {
  }

  /** No token input is moved to output `v`. */
  predicate NothingMovedTo(t: Tables, tx: Tx, v: nat) {
    forall j | 0 <= j < |TokenInputs(t, tx.inputs)| :: Destination(tx, j) != v
  }

  lemma {:induction false} NoTransfers(node: Node, tx: Tx, inputs: seq<TokenInput>, v: nat)
    requires forall j | 0 <= j < |inputs| :: Destination(tx, j) != v
    ensures WrittenAt(Transfers(node, tx, inputs), v) == []
    decreases |inputs|
  {
    if inputs != [] {
      NoTransfers(node, tx, inputs[..|inputs| - 1], v);
      TransfersPush(node, tx, inputs, v);
    }
  }

  /**
    An output that receives no spent tokens stores the items of its group in order, each once; and
    exactly as given when the group repeats no item.
    */
  lemma RegisteredRanges(
    t: Tables, node: Node, tx: Tx, at: Position, d: Ownership.RegisterOwnershipData, v: nat)
    requires Inv(t) && FreshTxid(t, tx.txid) && StepTx(t, node, tx, at).Ok?
    requires TxPayload(tx) == Some(Payload.RegisterOwnership(d)) && NothingMovedTo(t, tx, v)
    ensures Ownership.Valid(d)
    ensures var stored := UnspentRanges(StepTx(t, node, tx, at).value, OutPoint(tx.txid, v));
            if Accepted(t, node, tx, d) && 1 <= v <= |d.groups| then
              var items := GroupSlices(GroupOf(node, tx, d), d.groups[v - 1]);
              && stored == AppendNew([], items)
              && (Distinct(d.groups[v - 1]) ==>
                    && |stored| == |d.groups[v - 1]|
                    && forall i | 0 <= i < |stored| ::
                         stored[i] == Slice(GroupOf(node, tx, d), d.groups[v - 1][i].start, d.groups[v - 1][i].end))
            else stored == []
  {
    NothingMoved(t, tx, v);
    StepPlans(t, node, tx, at);
    hide *;
    var part, moved := RegisterPart(t, node, tx), Transfers(node, tx, TokenInputs(t, tx.inputs));
    RegisterPlan(t, node, tx, d);
    StepEffect(t, node, tx, at, OutPoint(tx.txid, v));
    RegisteredAt(t, node, tx, d, v);
    WrittenAtConcat(part, moved, v);
    NoTransfers(node, tx, TokenInputs(t, tx.inputs), v);
    assert WrittenAt(part, v) + [] == WrittenAt(part, v);
    AppendNothing();
    if Accepted(t, node, tx, d) && 1 <= v <= |d.groups| && Distinct(d.groups[v - 1]) {
      StoredItems(GroupOf(node, tx, d), d.groups[v - 1]);
    }
  }

  lemma NothingMoved(t: Tables, tx: Tx, v: nat)
    requires NothingMovedTo(t, tx, v)
    ensures forall j | 0 <= j < |TokenInputs(t, tx.inputs)| :: Destination(tx, j) != v
  {
  }

  lemma AppendNothing()
    ensures AppendNew([], []) == []
  {
  }

  lemma StoredItems(group: Group, g: Ownership.OwnershipGroup)
    requires Distinct(g)
    ensures |AppendNew([], GroupSlices(group, g))| == |g|
    ensures forall i | 0 <= i < |g| :: AppendNew([], GroupSlices(group, g))[i] == Slice(group, g[i].start, g[i].end)
  {
    DistinctItems(group, g);
    AppendDistinct(GroupSlices(group, g));
  }

  lemma DistinctItems(group: Group, g: Ownership.OwnershipGroup)
    requires Distinct(g)
    ensures Distinct(GroupSlices(group, g))
  {
    var slices := GroupSlices(group, g);
    forall i, j | 0 <= i < j < |slices| ensures slices[i] != slices[j] {
      assert slices[i] == SliceOf(group, g[i]) && slices[j] == SliceOf(group, g[j]) && g[i] != g[j];
    }
  }

  lemma StepPlans(t: Tables, node: Node, tx: Tx, at: Position)
    requires StepTx(t, node, tx, at).Ok?
    ensures PlanTx(t, node, tx).Ok?
  {
  }

  /**
    The order at an output that takes both: first the items of its group, then the coalesced ranges of the
    inputs due to it, each range stored at its first place. Later mixes count their indices over this.
    */
  lemma RegistrationOrder(
    t: Tables, node: Node, tx: Tx, at: Position, d: Ownership.RegisterOwnershipData, v: nat)
    requires Inv(t) && FreshTxid(t, tx.txid) && StepTx(t, node, tx, at).Ok?
    requires TxPayload(tx) == Some(Payload.RegisterOwnership(d)) && v < |tx.outputs| && tx.outputs[v].Spendable?
    ensures Ownership.Valid(d)
    ensures UnspentRanges(StepTx(t, node, tx, at).value, OutPoint(tx.txid, v))
         == AppendNew(
              [], Items(t, node, tx, d, v) + CoalescedEach(DueAt(TokenInputs(t, tx.inputs), tx.outputs, v)))
  {
    StepPlans(t, node, tx, at);
    hide *;
    var k := CountPayable(tx.outputs[..v]);
    DueIsDueAt(TokenInputs(t, tx.inputs), tx.outputs, v);
    var part, moved := RegisterPart(t, node, tx), Transfers(node, tx, TokenInputs(t, tx.inputs));
    RegisterPlan(t, node, tx, d);
    RegisteredAt(t, node, tx, d, v);
    WrittenAtConcat(part, moved, v);
    MoveWrites(node, tx, TokenInputs(t, tx.inputs), k);
    StepEffect(t, node, tx, at, OutPoint(tx.txid, v));
  }

  /** Some token input that goes to output `v` holds the token. */
  ghost predicate MovedTo(t: Tables, tx: Tx, v: nat, x: Token) {
    exists j :: 0 <= j < |TokenInputs(t, tx.inputs)| && Destination(tx, j) == v
      && x in Flatten(TokenInputs(t, tx.inputs)[j].ranges)
  }

  lemma MovedTokens(t: Tables, node: Node, tx: Tx, v: nat, x: Token)
    requires RangesSound(t)
    ensures x in Flatten(WrittenAt(Transfers(node, tx, TokenInputs(t, tx.inputs)), v)) <==> MovedTo(t, tx, v, x)
  {
    var inputs := TokenInputs(t, tx.inputs);
    var ws := Transfers(node, tx, inputs);
    WrittenAtTokens(ws, v, x);
    InputsWf(t, tx.inputs);
    forall j | 0 <= j < |inputs| ensures Flatten(ws[j].slices) == Flatten(inputs[j].ranges) {
      CoalesceCanonical(inputs[j].ranges, inputs[j].ranges);
    }
    if w :| w in ws && w.vout == v && x in Flatten(w.slices) {
      var j :| 0 <= j < |ws| && ws[j] == w;
    }
    if j :| 0 <= j < |inputs| && Destination(tx, j) == v && x in Flatten(inputs[j].ranges) {
      assert ws[j] in ws;
    }
  }

  /**
    All or nothing, for registrations that also spend tokens: every slot of group k is at output k+1 and
    no registered slot is anywhere else among the outputs, or none is registered at all. What else an
    output holds was moved there.
    */
  lemma RegistrationReaches(
    t: Tables, node: Node, tx: Tx, at: Position, d: Ownership.RegisterOwnershipData, v: nat, x: Token)
    requires Inv(t) && FreshTxid(t, tx.txid) && StepTx(t, node, tx, at).Ok?
    requires TxPayload(tx) == Some(Payload.RegisterOwnership(d))
    ensures Ownership.Valid(d)
    ensures HeldAt(StepTx(t, node, tx, at).value, OutPoint(tx.txid, v), x)
      <==> || MovedTo(t, tx, v, x)
           || (&& Accepted(t, node, tx, d)
               && x.group == Group(CollectionKey(d.collectionHeight, d.collectionTxIndex),
                                   node.hash160(node.raw[tx.inputs[0].txid][tx.inputs[0].vout].bytes))
               && 1 <= v <= |d.groups| && NamesSlot(d.groups[v - 1], x.slot))
  {
    var part, moved := RegisterPart(t, node, tx), Transfers(node, tx, TokenInputs(t, tx.inputs));
    RegisterPlan(t, node, tx, d);
    HeldAtOutput(t, node, tx, at, v, x);
    RegisteredAt(t, node, tx, d, v);
    WrittenAtConcat(part, moved, v);
    FlattenConcat(WrittenAt(part, v), WrittenAt(moved, v));
    MovedTokens(t, node, tx, v, x);
    AcceptedMeaning(t, node, tx, d);
    if Accepted(t, node, tx, d) && 1 <= v <= |d.groups| {
      GroupTokens(GroupOf(node, tx, d), d.groups[v - 1], x);
    }
  }

  // ---------------------------------------------------------------------------
  // Placed once, in terms of the message and the spent ranges
  // ---------------------------------------------------------------------------

  /** Items that share a slot are repetitions of one item within one group. */
  ghost predicate ItemsApart(gs: seq<Ownership.OwnershipGroup>) {
    forall k, l, i, j, slot: nat
      | 0 <= k < |gs| && 0 <= l < |gs| && 0 <= i < |gs[k]| && 0 <= j < |gs[l]|
        && Contains(gs[k][i], 1, slot) && Contains(gs[l][j], 1, slot) ::
      k == l && gs[k][i] == gs[l][j]
  }

  /** The ranges input `j` hands on. */
  function Moved(t: Tables, tx: Tx, j: nat): seq<Slice>
    requires j < |TokenInputs(t, tx.inputs)|
  {
    Coalesce(TokenInputs(t, tx.inputs)[j].ranges)
  }

  /** Spent ranges that share a token are the same range, moved to the same output. */
  ghost predicate InputsApart(t: Tables, tx: Tx) {
    forall j, l, s, r, x
      | 0 <= j < |TokenInputs(t, tx.inputs)| && 0 <= l < |TokenInputs(t, tx.inputs)|
        && s in Moved(t, tx, j) && r in Moved(t, tx, l) && Covers(s, x) && Covers(r, x) ::
      Destination(tx, j) == Destination(tx, l) && s == r
  }

  /** An item that shares a slot with a spent range is that range, and both go to one output. */
  ghost predicate ItemsMeetInputs(t: Tables, tx: Tx, group: Group, gs: seq<Ownership.OwnershipGroup>) {
    forall k, i, j, s, slot: nat
      | 0 <= k < |gs| && 0 <= i < |gs[k]| && 0 <= j < |TokenInputs(t, tx.inputs)| && s in Moved(t, tx, j)
        && Contains(gs[k][i], 1, slot) && Covers(s, Token(group, slot)) ::
      Destination(tx, j) == k + 1 && s == SliceOf(group, gs[k][i])
  }

  /** Whoever holds a slot the message names is spent by the transaction. */
  ghost predicate HoldersSpent(t: Tables, tx: Tx, group: Group, gs: seq<Ownership.OwnershipGroup>) {
    forall k, slot: nat, op
      | 0 <= k < |gs| && NamesSlot(gs[k], slot) && HeldAt(t, op, Token(group, slot)) :: Spends(tx, op)
  }

  ghost predicate PlacedAcross(ws: seq<Write>, vs: seq<Write>) {
    forall w, z, s, r, x | w in ws && z in vs && s in w.slices && r in z.slices && Covers(s, x) && Covers(r, x) ::
      w.vout == z.vout && s == r
  }

  lemma PlacedOnceConcat(ws: seq<Write>, vs: seq<Write>)
    ensures PlacedOnce(ws + vs) <==> PlacedOnce(ws) && PlacedOnce(vs) && PlacedAcross(ws, vs)
  {
    hide Covers;
    assert forall w :: w in ws + vs <==> w in ws || w in vs;
  }

  lemma WrittenItem(
    node: Node, tx: Tx, group: Group, gs: seq<Ownership.OwnershipGroup>, w: Write, s: Slice, x: Token)
    returns (k: nat, i: nat)
    requires |gs| < |tx.outputs|
    requires w in RegisterWrites(node, tx, group, gs) && s in w.slices && Covers(s, x)
    ensures k < |gs| && i < |gs[k]| && w.vout == k + 1 && s == SliceOf(group, gs[k][i])
    ensures x == Token(group, x.slot) && Contains(gs[k][i], 1, x.slot)
  {
    var ws := RegisterWrites(node, tx, group, gs);
    k :| 0 <= k < |ws| && ws[k] == w;
    i :| 0 <= i < |w.slices| && w.slices[i] == s;
  }

  lemma ItemWritten(
    node: Node, tx: Tx, group: Group, gs: seq<Ownership.OwnershipGroup>, k: nat, i: nat, slot: nat)
    returns (w: Write)
    requires |gs| < |tx.outputs| && k < |gs| && i < |gs[k]| && Contains(gs[k][i], 1, slot)
    ensures w in RegisterWrites(node, tx, group, gs) && w.vout == k + 1 && SliceOf(group, gs[k][i]) in w.slices
    ensures Covers(SliceOf(group, gs[k][i]), Token(group, slot))
  {
    w := RegisterWrites(node, tx, group, gs)[k];
    assert w in RegisterWrites(node, tx, group, gs);
    assert w.slices[i] == SliceOf(group, gs[k][i]);
  }

  lemma WrittenMove(t: Tables, node: Node, tx: Tx, w: Write, s: Slice) returns (j: nat)
    requires w in Transfers(node, tx, TokenInputs(t, tx.inputs)) && s in w.slices
    ensures j < |TokenInputs(t, tx.inputs)| && w.vout == Destination(tx, j) && s in Moved(t, tx, j)
  {
    var vs := Transfers(node, tx, TokenInputs(t, tx.inputs));
    j :| 0 <= j < |vs| && vs[j] == w;
  }

  lemma MoveWritten(t: Tables, node: Node, tx: Tx, j: nat, s: Slice) returns (w: Write)
    requires j < |TokenInputs(t, tx.inputs)| && s in Moved(t, tx, j)
    ensures w in Transfers(node, tx, TokenInputs(t, tx.inputs)) && w.vout == Destination(tx, j) && s in w.slices
  {
    w := Transfers(node, tx, TokenInputs(t, tx.inputs))[j];
  }

  lemma ItemsPlaced(node: Node, tx: Tx, group: Group, gs: seq<Ownership.OwnershipGroup>)
    requires |gs| < |tx.outputs|
    ensures PlacedOnce(RegisterWrites(node, tx, group, gs)) <==> ItemsApart(gs)
  {
    hide RegisterWrites, Covers, Contains;
    var ws := RegisterWrites(node, tx, group, gs);
    if PlacedOnce(ws) {
      forall k, l, i, j, slot: nat
        | 0 <= k < |gs| && 0 <= l < |gs| && 0 <= i < |gs[k]| && 0 <= j < |gs[l]|
          && Contains(gs[k][i], 1, slot) && Contains(gs[l][j], 1, slot)
        ensures k == l && gs[k][i] == gs[l][j]
      {
        var w := ItemWritten(node, tx, group, gs, k, i, slot);
        var z := ItemWritten(node, tx, group, gs, l, j, slot);
      }
    }
    if ItemsApart(gs) {
      forall w, z, s, r, x | w in ws && z in ws && s in w.slices && r in z.slices && Covers(s, x) && Covers(r, x)
        ensures w.vout == z.vout && s == r
      {
        var k, i := WrittenItem(node, tx, group, gs, w, s, x);
        var l, j := WrittenItem(node, tx, group, gs, z, r, x);
      }
    }
  }

  lemma InputsPlaced(t: Tables, node: Node, tx: Tx)
    ensures PlacedOnce(Transfers(node, tx, TokenInputs(t, tx.inputs))) <==> InputsApart(t, tx)
  {
    hide Transfers, Covers, Moved, Destination, TokenInputs;
    var vs := Transfers(node, tx, TokenInputs(t, tx.inputs));
    if PlacedOnce(vs) {
      forall j, l, s, r, x
        | 0 <= j < |TokenInputs(t, tx.inputs)| && 0 <= l < |TokenInputs(t, tx.inputs)|
          && s in Moved(t, tx, j) && r in Moved(t, tx, l) && Covers(s, x) && Covers(r, x)
        ensures Destination(tx, j) == Destination(tx, l) && s == r
      {
        var w := MoveWritten(t, node, tx, j, s);
        var z := MoveWritten(t, node, tx, l, r);
      }
    }
    if InputsApart(t, tx) {
      forall w, z, s, r, x | w in vs && z in vs && s in w.slices && r in z.slices && Covers(s, x) && Covers(r, x)
        ensures w.vout == z.vout && s == r
      {
        var j := WrittenMove(t, node, tx, w, s);
        var l := WrittenMove(t, node, tx, z, r);
      }
    }
  }

  lemma ItemsMeetInputsPlaced(t: Tables, node: Node, tx: Tx, group: Group, gs: seq<Ownership.OwnershipGroup>)
    requires |gs| < |tx.outputs|
    ensures PlacedAcross(RegisterWrites(node, tx, group, gs), Transfers(node, tx, TokenInputs(t, tx.inputs)))
      <==> ItemsMeetInputs(t, tx, group, gs)
  {
    hide RegisterWrites, Transfers, Covers, Contains, Moved, Destination, TokenInputs;
    var ws, vs := RegisterWrites(node, tx, group, gs), Transfers(node, tx, TokenInputs(t, tx.inputs));
    if PlacedAcross(ws, vs) {
      forall k, i, j, s, slot: nat
        | 0 <= k < |gs| && 0 <= i < |gs[k]| && 0 <= j < |TokenInputs(t, tx.inputs)| && s in Moved(t, tx, j)
          && Contains(gs[k][i], 1, slot) && Covers(s, Token(group, slot))
        ensures Destination(tx, j) == k + 1 && s == SliceOf(group, gs[k][i])
      {
        var w := ItemWritten(node, tx, group, gs, k, i, slot);
        var z := MoveWritten(t, node, tx, j, s);
      }
    }
    if ItemsMeetInputs(t, tx, group, gs) {
      forall w, z, s, r, x | w in ws && z in vs && s in w.slices && r in z.slices && Covers(s, x) && Covers(r, x)
        ensures w.vout == z.vout && s == r
      {
        var k, i := WrittenItem(node, tx, group, gs, w, s, x);
        var j := WrittenMove(t, node, tx, z, r);
      }
    }
  }

  lemma HoldersMeaning(t: Tables, node: Node, tx: Tx, d: Ownership.RegisterOwnershipData)
    requires TxPayload(tx) == Some(Payload.RegisterOwnership(d))
    ensures Ownership.Valid(d)
    ensures NewOrSpent(t, node, tx)
      <==> (Accepted(t, node, tx, d) ==> HoldersSpent(t, tx, GroupOf(node, tx, d), d.groups))
  {
    PartIs(t, node, tx, d);
    forall x ensures Registers(t, node, tx, x)
      <==> && Accepted(t, node, tx, d) && x.group == GroupOf(node, tx, d)
           && exists k :: 0 <= k < |d.groups| && NamesSlot(d.groups[k], x.slot)
    {
      RegistersItems(t, node, tx, d, x);
    }
    if NewOrSpent(t, node, tx) && Accepted(t, node, tx, d) {
      forall k, slot: nat, op
        | 0 <= k < |d.groups| && NamesSlot(d.groups[k], slot) && HeldAt(t, op, Token(GroupOf(node, tx, d), slot))
        ensures Spends(tx, op)
      {
        assert Registers(t, node, tx, Token(GroupOf(node, tx, d), slot));
      }
    }
    if Accepted(t, node, tx, d) && HoldersSpent(t, tx, GroupOf(node, tx, d), d.groups) {
      forall x, op | Registers(t, node, tx, x) && HeldAt(t, op, x) ensures Spends(tx, op) {
        assert x == Token(GroupOf(node, tx, d), x.slot);
      }
    }
  }

  /** Consensus spends an outpoint once, so single holders are enough to keep the spent ranges apart. */
  lemma SingleInputsApart(t: Tables, node: Node, tx: Tx)
    requires RangesSound(t) && Single(t) && DistinctInputs(tx.inputs)
    ensures InputsApart(t, tx)
  {
    var inputs := TokenInputs(t, tx.inputs);
    var vs := Transfers(node, tx, inputs);
    InputsWf(t, tx.inputs);
    TransfersSequence(node, tx, inputs);
    forall x ensures Count(Flatten(AllSlices(vs)), x) <= 1 {
      InputsCount(t, tx.inputs, x);
    }
    CountedOncePlacedOnce(vs);
    InputsPlaced(t, node, tx);
  }

  /**
    From single holding, a registration keeps it if and only if the spent ranges stay apart and, when it
    is accepted, its items that share a slot are repetitions within one group, an item that shares a slot
    with a spent range is that range at the same output, and every holder of a named slot is spent. It
    may spend tokens, and it may repeat items.
    */
  lemma RegistrationKeepsSingleIff(
    t: Tables, node: Node, tx: Tx, at: Position, d: Ownership.RegisterOwnershipData)
    requires Inv(t) && Single(t) && FreshTxid(t, tx.txid) && StepTx(t, node, tx, at).Ok?
    requires TxPayload(tx) == Some(Payload.RegisterOwnership(d))
    ensures Ownership.Valid(d)
    ensures Single(StepTx(t, node, tx, at).value)
      <==> && InputsApart(t, tx)
           && (Accepted(t, node, tx, d) ==>
                 && ItemsApart(d.groups) && ItemsMeetInputs(t, tx, GroupOf(node, tx, d), d.groups)
                 && HoldersSpent(t, tx, GroupOf(node, tx, d), d.groups))
    ensures DistinctInputs(tx.inputs) ==> InputsApart(t, tx)
  {
    assert PlanTx(t, node, tx).Ok?;
    hide Inv, Single, StepTx, PlacedOnce, NewOrSpent, InputsApart, ItemsApart, ItemsMeetInputs, HoldersSpent,
      PlacedAcross, DistinctInputs, RangesSound, Transfers, RegisterWrites;
    SoundOf(t);
    PartIs(t, node, tx, d);
    RegisterPlan(t, node, tx, d);
    SingleKeptIff(t, node, tx, at);
    HoldersMeaning(t, node, tx, d);
    InputsPlaced(t, node, tx);
    var vs := Transfers(node, tx, TokenInputs(t, tx.inputs));
    if Accepted(t, node, tx, d) {
      PlacedOnceConcat(RegisterPart(t, node, tx), vs);
      ItemsPlaced(node, tx, GroupOf(node, tx, d), d.groups);
      ItemsMeetInputsPlaced(t, node, tx, GroupOf(node, tx, d), d.groups);
    } else {
      assert [] + vs == vs;
    }
    if DistinctInputs(tx.inputs) {
      SingleInputsApart(t, node, tx);
    }
  }
}
