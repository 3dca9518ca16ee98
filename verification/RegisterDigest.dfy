/** The indexer's side of register-ownership. */
module RegisterDigest {
  import opened Prelude
  import opened Tokens
  import opened Storage
  import opened Transactions
  import opened Writes
  import Ownership = OwnershipPayload

  const MAX_REGISTERED_TOKENS_PER_TX: nat := 1_000_000

  function SliceOf(group: Group, r: Ownership.SlotRange): Slice {
    Slice(group, r.start, r.end)
  }

  function GroupSlices(group: Group, g: Ownership.OwnershipGroup): seq<Slice> {
    seq(|g|, i requires 0 <= i < |g| => SliceOf(group, g[i]))
  }

  function RegisterWrite(node: Node, tx: Tx, group: Group, g: Ownership.OwnershipGroup, k: nat): Write
    requires k + 1 < |tx.outputs|
  {
    var script := tx.outputs[k + 1].bytes;
    Write(k + 1, node.hash160(script), script, GroupSlices(group, g))
  }

  function RegisterWrites(node: Node, tx: Tx, group: Group, groups: seq<Ownership.OwnershipGroup>): seq<Write>
    requires |groups| < |tx.outputs|
  {
    seq(|groups|, k requires 0 <= k < |groups| => RegisterWrite(node, tx, group, groups[k], k))
  }

  function CollectionOf(d: Ownership.RegisterOwnershipData): CollectionKey {
    CollectionKey(d.collectionHeight, d.collectionTxIndex)
  }

  /** The script hash of the output that input 0 spends. */
  function BaseH160(node: Node, tx: Tx): Result<H160, Brc721Error> {
    if tx.inputs == [] then Err(TxError)
    else if tx.inputs[0] == NULL_OUTPOINT then Err(TxError)
    else if tx.inputs[0].txid !in node.raw then Err(TxError)
    else
      var outputs := node.raw[tx.inputs[0].txid];
      if tx.inputs[0].vout >= |outputs| then Err(TxError)
      else Ok(node.hash160(outputs[tx.inputs[0].vout].bytes))
  }

  // ---------------------------------------------------------------------------
  // Counting the registered tokens
  // ---------------------------------------------------------------------------

  function SlotsInGroup(g: Ownership.OwnershipGroup): nat
    requires Ownership.WfGroup(g)
  {
    if g == [] then 0
    else SlotsInGroup(g[..|g| - 1]) + (g[|g| - 1].end - g[|g| - 1].start + 1)
  }

  /** How many slots the payload names, counted without bound. */
  function TotalSlots(groups: seq<Ownership.OwnershipGroup>): nat
    requires forall k | 0 <= k < |groups| :: Ownership.WfGroup(groups[k])
  {
    if groups == [] then 0 else TotalSlots(groups[..|groups| - 1]) + SlotsInGroup(groups[|groups| - 1])
  }

  function SaturatingAdd(a: nat, b: nat): nat {
    if a + b > U128_MAX then U128_MAX else a + b
  }

  method SaturatingSlots(g: Ownership.OwnershipGroup, acc0: nat) returns (acc: nat)
    requires Ownership.WfGroup(g) && acc0 <= U128_MAX
    ensures acc == SaturatingAdd(acc0, SlotsInGroup(g))
  {
    acc := acc0;
    for i := 0 to |g|
      invariant acc == SaturatingAdd(acc0, SlotsInGroup(g[..i]))
    {
      assert g[..i + 1][..i] == g[..i];
      assert Ownership.WfSlots(g[i]);
      var delta := if g[i].end < g[i].start then 0 else g[i].end - g[i].start;
      acc := SaturatingAdd(acc, SaturatingAdd(delta, 1));
    }
    assert g[..|g|] == g;
  }

  /** The saturating sum of `total_slots_in_payload` decides the limit exactly as the true sum does. */
  method TotalSlotsInPayload(groups: seq<Ownership.OwnershipGroup>) returns (total: nat)
    requires forall k | 0 <= k < |groups| :: Ownership.WfGroup(groups[k])
    ensures total == SaturatingAdd(0, TotalSlots(groups))
    ensures total > MAX_REGISTERED_TOKENS_PER_TX <==> TotalSlots(groups) > MAX_REGISTERED_TOKENS_PER_TX
  {
    total := 0;
    for k := 0 to |groups|
      invariant total == SaturatingAdd(0, TotalSlots(groups[..k]))
    {
      assert groups[..k + 1][..k] == groups[..k];
      total := SaturatingSlots(groups[k], total);
    }
    assert groups[..|groups|] == groups;
  }

  // ---------------------------------------------------------------------------
  // digest
  // ---------------------------------------------------------------------------

  /** The rows a registration writes. `Err` aborts the batch; an empty list ignores the message. */
  function RegisterOutcome(
    collections: map<CollectionKey, Collection>, node: Node, tx: Tx, d: Ownership.RegisterOwnershipData)
    : Result<seq<Write>, Brc721Error>
    requires Ownership.Valid(d) && |d.groups| < |tx.outputs|
  {
    if CollectionOf(d) !in collections then Ok([])
    else
      var base :- BaseH160(node, tx);
      if TotalSlots(d.groups) > MAX_REGISTERED_TOKENS_PER_TX then Ok([])
      else Ok(RegisterWrites(node, tx, Group(CollectionOf(d), base), d.groups))
  }

  lemma {:induction false} OneGroup(group: Group, g: Ownership.OwnershipGroup)
    requires g != []
    ensures UniqueGroups(GroupSlices(group, g)) == [group]
  {
    var xs := GroupSlices(group, g);
    var n := |xs| - 1;
    assert xs[..n] == GroupSlices(group, g[..n]);
    if n > 0 {
      OneGroup(group, g[..n]);
    }
  }

  method SaveGroup(
    storage: SqliteTx, op: OutPoint, row: UtxoRow, group: Group, g: Ownership.OwnershipGroup)
    returns (r: Result<(), Brc721Error>)
    requires g != [] && Ownership.WfGroup(g)
    modifies storage`utxos, storage`ranges
    ensures r.Ok?
    ensures storage.Contents() == WriteOutput(old(storage.Contents()), op, row, GroupSlices(group, g))
  {
    ghost var slices := GroupSlices(group, g);
    OneGroup(group, g);
    storage.SaveOwnershipUtxo(UtxoKey(op, group), row);
    assert storage.utxos == InsertGroups(old(storage.utxos), op, row, [group]);
    ghost var utxos := storage.utxos;
    for i := 0 to |g|
      invariant storage.utxos == utxos && UtxoKey(op, group) in utxos
      invariant storage.ranges == InsertRanges(old(storage.ranges), op, slices[..i])
    {
      assert slices[..i + 1][..i] == slices[..i] && slices[i] == SliceOf(group, g[i]);
      assert Ownership.WfSlots(g[i]);
      if g[i].start > Ownership.MAX_SLOT || g[i].end > Ownership.MAX_SLOT {
        assert false;
      }
      StoredRange(slices[i]);
      var saved := storage.SaveOwnershipRange(op, group, g[i].start, g[i].end);
      if saved.Err? {
        assert false;
      }
    }
    assert slices[..|g|] == slices;
    return Ok(());
  }

  /** All or nothing: either every range of every group is written, or no row is. */
  method Digest(
    d: Ownership.RegisterOwnershipData, tx: Tx, storage: SqliteTx, node: Node, at: Position)
    returns (r: Result<(), Brc721Error>)
    requires Ownership.Valid(d) && |d.groups| < |tx.outputs| && WfTx(tx)
    modifies storage`utxos, storage`ranges
    ensures match RegisterOutcome(old(storage.collections), node, tx, d)
            case Err(e) => r == Err(e) && storage.Contents() == old(storage.Contents())
            case Ok(ws) => r.Ok? && storage.Contents() == ApplyWrites(old(storage.Contents()), tx.txid, at, ws)
  {
    var key := CollectionOf(d);
    if key !in storage.collections {
      return Ok(());
    }
    var base := BaseH160(node, tx);
    if base.Err? {
      return Err(base.error);
    }
    var total := TotalSlotsInPayload(d.groups);
    if total > MAX_REGISTERED_TOKENS_PER_TX {
      return Ok(());
    }
    var group := Group(key, base.value);
    ghost var ws := RegisterWrites(node, tx, group, d.groups);
    for k := 0 to |d.groups|
      invariant storage.collections == old(storage.collections)
      invariant storage.Contents() == ApplyWrites(old(storage.Contents()), tx.txid, at, ws[..k])
    {
      NextWrite(old(storage.Contents()), tx.txid, at, ws, k);
      var regVout := k + 1;
      if regVout > U32_MAX || regVout >= |tx.outputs| {
        assert false;
      }
      var script := tx.outputs[regVout].bytes;
      var row := UtxoRow(node.hash160(script), script, at, None);
      var saved := SaveGroup(storage, OutPoint(tx.txid, regVout), row, group, d.groups[k]);
    }
    assert ws[..|ws|] == ws;
    return Ok(());
  }
}
