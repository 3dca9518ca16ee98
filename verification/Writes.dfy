/** Giving ranges to the outputs of a transaction: the plan as a value, and the loops that carry it out. */
module Writes {
  import opened Prelude
  import opened Tokens
  import opened Storage
  import opened TableInvariant

  /** `slices` go to output `vout`, recorded under this owner and script. */
  datatype Write = Write(vout: nat, owner: H160, script: seq<byte>, slices: seq<Slice>)

  function RowOf(w: Write, at: Position): UtxoRow {
    UtxoRow(w.owner, w.script, at, None)
  }

  function ApplyWrite(t: Tables, txid: Txid, at: Position, w: Write): Tables {
    WriteOutput(t, OutPoint(txid, w.vout), RowOf(w, at), w.slices)
  }

  function ApplyWrites(t: Tables, txid: Txid, at: Position, ws: seq<Write>): Tables {
    if ws == [] then t else ApplyWrite(ApplyWrites(t, txid, at, ws[..|ws| - 1]), txid, at, ws[|ws| - 1])
  }

  lemma NextWrite(t: Tables, txid: Txid, at: Position, ws: seq<Write>, j: nat)
    requires j < |ws|
    ensures ApplyWrites(t, txid, at, ws[..j + 1])
         == WriteOutput(ApplyWrites(t, txid, at, ws[..j]), OutPoint(txid, ws[j].vout), RowOf(ws[j], at), ws[j].slices)
  {
    assert ws[..j + 1][..j] == ws[..j];
  }

  lemma {:induction false} ApplyWritesConcat(t: Tables, txid: Txid, at: Position, ws: seq<Write>, vs: seq<Write>)
    ensures ApplyWrites(t, txid, at, ws + vs) == ApplyWrites(ApplyWrites(t, txid, at, ws), txid, at, vs)
  {
    if vs == [] {
      assert ws + vs == ws;
    } else {
      var n := |vs| - 1;
      ApplyWritesConcat(t, txid, at, ws, vs[..n]);
      assert (ws + vs)[..|ws + vs| - 1] == ws + vs[..n];
    }
  }

  // ---------------------------------------------------------------------------
  // The saving loops
  // ---------------------------------------------------------------------------

  method SaveGroups(storage: SqliteTx, op: OutPoint, row: UtxoRow, groups: seq<Group>)
    modifies storage`utxos
    ensures storage.Contents() == old(storage.Contents()).(utxos := InsertGroups(old(storage.utxos), op, row, groups))
  {
    for i := 0 to |groups|
      invariant storage.utxos == InsertGroups(old(storage.utxos), op, row, groups[..i])
    {
      assert groups[..i + 1][..i] == groups[..i];
      storage.SaveOwnershipUtxo(UtxoKey(op, groups[i]), row);
    }
    assert groups[..|groups|] == groups;
  }

  /** With 96-bit slots and the utxo rows in place, no constraint of the range table can fail. */
  method SaveSlices(storage: SqliteTx, op: OutPoint, slices: seq<Slice>) returns (r: Result<(), Brc721Error>)
    requires forall s | s in slices :: StoredSlice(s) && UtxoKey(op, s.group) in storage.utxos
    modifies storage`ranges
    ensures r.Ok?
    ensures storage.Contents() == old(storage.Contents()).(ranges := InsertRanges(old(storage.ranges), op, slices))
  {
    for i := 0 to |slices|
      invariant storage.ranges == InsertRanges(old(storage.ranges), op, slices[..i])
    {
      assert slices[..i + 1][..i] == slices[..i];
      var s := slices[i];
      assert s in slices;
      StoredRange(s);
      var saved := storage.SaveOwnershipRange(op, s.group, s.start, s.end);
      if saved.Err? {
        assert false;
      }
    }
    assert slices[..|slices|] == slices;
    return Ok(());
  }

  /** The utxo row of each group first, then the ranges: the order the foreign key needs. */
  method SaveOutput(storage: SqliteTx, op: OutPoint, row: UtxoRow, slices: seq<Slice>)
    returns (r: Result<(), Brc721Error>)
    requires forall s | s in slices :: StoredSlice(s)
    modifies storage`utxos, storage`ranges
    ensures r.Ok?
    ensures storage.Contents() == WriteOutput(old(storage.Contents()), op, row, slices)
  {
    var groups := UniqueGroupsFromRanges(slices);
    SaveGroups(storage, op, row, groups);
    GroupsSaved(old(storage.utxos), op, row, slices);
    r := SaveSlices(storage, op, slices);
  }

  lemma GroupsSaved(utxos: map<UtxoKey, UtxoRow>, op: OutPoint, row: UtxoRow, slices: seq<Slice>)
    ensures forall s | s in slices :: UtxoKey(op, s.group) in InsertGroups(utxos, op, row, UniqueGroups(slices))
  {
    InsertGroupsKeys(utxos, op, row, UniqueGroups(slices));
    forall s | s in slices ensures s.group in UniqueGroups(slices) {
      var i :| 0 <= i < |slices| && slices[i] == s;
      UniqueGroupsMembers(slices, s.group);
    }
  }

  /** `save_ranges_for_output`: groups of the ranges as they came, ranges coalesced. */
  method SaveRangesForOutput(storage: SqliteTx, op: OutPoint, row: UtxoRow, ranges: seq<Slice>)
    returns (r: Result<(), Brc721Error>)
    requires forall s | s in ranges :: StoredSlice(s)
    modifies storage`utxos, storage`ranges
    ensures r.Ok?
    ensures storage.Contents() == WriteOutput(old(storage.Contents()), op, row, Coalesce(ranges))
  {
    var groups := UniqueGroupsFromRanges(ranges);
    SaveGroups(storage, op, row, groups);
    CoalesceGroups(ranges);
    var merged := MergeOrderedRanges(ranges);
    CoalesceStored(ranges);
    GroupsSaved(old(storage.utxos), op, row, merged);
    r := SaveSlices(storage, op, merged);
  }

  // ---------------------------------------------------------------------------
  // Ranges of known tokens can be stored
  // ---------------------------------------------------------------------------

  predicate StorableToken(collections: map<CollectionKey, Collection>, t: Token) {
    t.slot < TWO_96 && t.group.collection in collections
  }

  lemma TokensOfStorable(t: Tables, slices: seq<Slice>)
    requires Storable(t, slices)
    ensures forall x | x in Flatten(slices) :: StorableToken(t.collections, x)
    ensures WfSlices(slices)
  {
    forall x | x in Flatten(slices) ensures StorableToken(t.collections, x) {
      FlattenCovers(slices, x);
      var i :| 0 <= i < |slices| && Covers(slices[i], x);
      assert slices[i] in slices;
    }
    forall i | 0 <= i < |slices| ensures WfSlice(slices[i]) {
      assert slices[i] in slices;
    }
  }

  lemma StorableOfTokens(t: Tables, slices: seq<Slice>)
    requires WfSlices(slices)
    requires forall x | x in Flatten(slices) :: StorableToken(t.collections, x)
    ensures Storable(t, slices)
  {
    forall s | s in slices ensures StoredSlice(s) && s.group.collection in t.collections {
      var i :| 0 <= i < |slices| && slices[i] == s;
      var x := Token(s.group, s.end);
      assert Covers(slices[i], x);
      FlattenCovers(slices, x);
    }
  }

  lemma CoalesceStored(ranges: seq<Slice>)
    requires forall s | s in ranges :: StoredSlice(s)
    ensures forall s | s in Coalesce(ranges) :: StoredSlice(s)
  {
    assert WfSlices(ranges) by {
      forall i | 0 <= i < |ranges| ensures WfSlice(ranges[i]) {
        assert ranges[i] in ranges;
      }
    }
    CoalesceCanonical(ranges, ranges);
    CoalesceBounds(ranges, TWO_96);
    forall s | s in Coalesce(ranges) ensures StoredSlice(s) {
      var i :| 0 <= i < |Coalesce(ranges)| && Coalesce(ranges)[i] == s;
    }
  }
}
