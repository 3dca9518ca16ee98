/**
  What holds of the tables in every state the indexer reaches, and what each kind of statement does
  to the ranges found at an outpoint.
  */
module TableInvariant {
  import opened Prelude
  import opened Tokens
  import opened Storage

  function SlicesAt(t: Tables, op: OutPoint): seq<Slice> {
    SlicesOf(RowsAt(t.ranges, op))
  }

  predicate Numbered(rows: seq<RangeRow>) {
    forall i | 0 <= i < |rows| :: rows[i].rangeSeq == i
  }

  predicate Distinct<T(==)>(xs: seq<T>) {
    forall i, j | 0 <= i < j < |xs| :: xs[i] != xs[j]
  }

  predicate StoredSlice(s: Slice) {
    s.start <= s.end < TWO_96
  }

  predicate RangesHaveUtxo(t: Tables) {
    forall r | r in t.ranges :: KeyOf(r) in t.utxos
  }

  predicate UtxosHaveRange(t: Tables) {
    forall k | k in t.utxos :: exists r :: r in t.ranges && KeyOf(r) == k
  }

  /** Owner, script, creation point and spent status belong to the outpoint, not to the group. */
  predicate OutpointsUniform(t: Tables) {
    forall k, l | k in t.utxos && l in t.utxos && k.outpoint == l.outpoint :: t.utxos[k] == t.utxos[l]
  }

  predicate RangesSound(t: Tables) {
    forall r | r in t.ranges :: StoredSlice(r.slice) && r.slice.group.collection in t.collections
  }

  /** At each outpoint `range_seq` counts 0, 1, 2, ... in insertion order. */
  ghost predicate RangesNumbered(t: Tables) {
    forall op :: Numbered(RowsAt(t.ranges, op))
  }

  ghost predicate RangesDistinct(t: Tables) {
    forall op :: Distinct(SlicesAt(t, op))
  }

  ghost predicate Inv(t: Tables) {
    && RangesHaveUtxo(t) && UtxosHaveRange(t) && OutpointsUniform(t)
    && RangesSound(t) && RangesNumbered(t) && RangesDistinct(t)
  }

  // ---------------------------------------------------------------------------
  // Rows at an outpoint
  // ---------------------------------------------------------------------------

  lemma RowsAtPush(rows: seq<RangeRow>, r: RangeRow, op: OutPoint)
    ensures RowsAt(rows + [r], op) == RowsAt(rows, op) + if r.outpoint == op then [r] else []
  {
    assert (rows + [r])[..|rows|] == rows;
  }

  lemma {:induction false} RowsAtMembers(rows: seq<RangeRow>, op: OutPoint, r: RangeRow)
    ensures r in RowsAt(rows, op) <==> r in rows && r.outpoint == op
  {
    if rows != [] {
      var n := |rows| - 1;
      RowsAtMembers(rows[..n], op, r);
      assert rows == rows[..n] + [rows[n]];
    }
  }

  lemma SlicesAtMembers(rows: seq<RangeRow>, op: OutPoint, s: Slice)
    ensures s in SlicesOf(RowsAt(rows, op)) <==> exists r :: r in rows && r.outpoint == op && r.slice == s
  {
    var at := RowsAt(rows, op);
    if s in SlicesOf(at) {
      var i :| 0 <= i < |at| && SlicesOf(at)[i] == s;
      RowsAtMembers(rows, op, at[i]);
    }
    if r :| r in rows && r.outpoint == op && r.slice == s {
      RowsAtMembers(rows, op, r);
      var i :| 0 <= i < |at| && at[i] == r;
      assert SlicesOf(at)[i] == s;
    }
  }

  lemma {:induction false} NextSeqCounts(rows: seq<RangeRow>, op: OutPoint)
    requires Numbered(RowsAt(rows, op))
    ensures NextSeq(rows, op) == |RowsAt(rows, op)|
  {
    if rows != [] {
      var n := |rows| - 1;
      var before, at := RowsAt(rows[..n], op), RowsAt(rows, op);
      assert forall i | 0 <= i < |before| :: before[i] == at[i];
      NextSeqCounts(rows[..n], op);
      if rows[n].outpoint == op {
        assert at[|before|] == rows[n];
      }
    }
  }

  function AddNew(xs: seq<Slice>, s: Slice): seq<Slice> {
    if s in xs then xs else xs + [s]
  }

  /** Appending under `ON CONFLICT DO NOTHING`: a range already there is not stored again. */
  function AppendNew(xs: seq<Slice>, ys: seq<Slice>): seq<Slice> {
    if ys == [] then xs else AddNew(AppendNew(xs, ys[..|ys| - 1]), ys[|ys| - 1])
  }

  lemma InsertRangeAt(rows: seq<RangeRow>, op: OutPoint, s: Slice, at: OutPoint)
    requires Numbered(RowsAt(rows, at))
    ensures SlicesOf(RowsAt(InsertRange(rows, op, s), at))
         == if at == op then AddNew(SlicesOf(RowsAt(rows, at)), s) else SlicesOf(RowsAt(rows, at))
    ensures Numbered(RowsAt(InsertRange(rows, op, s), at))
  {
    hide RowsAt, NextSeq;
    SlicesAtMembers(rows, op, s);
    var row := RangeRow(op, s, NextSeq(rows, op));
    RowsAtPush(rows, row, at);
    if at == op {
      NextSeqCounts(rows, op);
    }
  }

  lemma {:induction false} InsertRangesAt(rows: seq<RangeRow>, op: OutPoint, slices: seq<Slice>, at: OutPoint)
    requires Numbered(RowsAt(rows, at))
    ensures SlicesOf(RowsAt(InsertRanges(rows, op, slices), at))
         == if at == op then AppendNew(SlicesOf(RowsAt(rows, at)), slices) else SlicesOf(RowsAt(rows, at))
    ensures Numbered(RowsAt(InsertRanges(rows, op, slices), at))
  {
    if slices != [] {
      var n := |slices| - 1;
      InsertRangesAt(rows, op, slices[..n], at);
      InsertRangeAt(InsertRanges(rows, op, slices[..n]), op, slices[n], at);
    }
  }

  lemma {:induction false} InsertRangesMembers(rows: seq<RangeRow>, op: OutPoint, slices: seq<Slice>)
    ensures forall r | r in rows :: r in InsertRanges(rows, op, slices)
    ensures forall r | r in InsertRanges(rows, op, slices) :: r in rows || (r.outpoint == op && r.slice in slices)
    ensures forall s | s in slices ::
              exists r :: r in InsertRanges(rows, op, slices) && r.outpoint == op && r.slice == s
  {
    if slices != [] {
      var n := |slices| - 1;
      var before, s := InsertRanges(rows, op, slices[..n]), slices[n];
      InsertRangesMembers(rows, op, slices[..n]);
      InsertRangeMembers(before, op, s);
      assert slices == slices[..n] + [s];
      forall s' | s' in slices
        ensures exists r :: r in InsertRanges(rows, op, slices) && r.outpoint == op && r.slice == s'
      {
        if s' != s {
          var r :| r in before && r.outpoint == op && r.slice == s';
          assert r in InsertRanges(rows, op, slices);
        }
      }
    }
  }

  lemma InsertRangeMembers(rows: seq<RangeRow>, op: OutPoint, s: Slice)
    ensures forall r | r in rows :: r in InsertRange(rows, op, s)
    ensures forall r | r in InsertRange(rows, op, s) :: r in rows || (r.outpoint == op && r.slice == s)
    ensures exists r :: r in InsertRange(rows, op, s) && r.outpoint == op && r.slice == s
  {
    var row := RangeRow(op, s, NextSeq(rows, op));
    assert row in rows + [row];
  }

  lemma {:induction false} AppendNewDistinct(xs: seq<Slice>, ys: seq<Slice>)
    requires Distinct(xs)
    ensures Distinct(AppendNew(xs, ys))
  {
    if ys != [] {
      AppendNewDistinct(xs, ys[..|ys| - 1]);
    }
  }

  // ---------------------------------------------------------------------------
  // The query
  // ---------------------------------------------------------------------------

  ghost predicate Unspent(t: Tables, op: OutPoint) {
    exists k :: IsUnspent(t.utxos, k) && k.outpoint == op
  }

  lemma {:induction false} OrderedAlready(rows: seq<RangeRow>)
    requires Numbered(rows)
    ensures OrderBySeq(rows) == rows
  {
    if rows != [] {
      var n := |rows| - 1;
      OrderedAlready(rows[..n]);
      assert rows == rows[..n] + [rows[n]];
    }
  }

  lemma {:induction false} JoinIsRowsAt(
    rows: seq<RangeRow>, utxos: map<UtxoKey, UtxoRow>, op: OutPoint, unspent: bool)
    requires forall r | r in rows && r.outpoint == op :: IsUnspent(utxos, KeyOf(r)) == unspent
    ensures JoinUnspent(rows, utxos, op) == if unspent then RowsAt(rows, op) else []
  {
    if rows != [] {
      var n := |rows| - 1;
      assert rows[n] in rows && forall r | r in rows[..n] :: r in rows;
      JoinIsRowsAt(rows[..n], utxos, op, unspent);
    }
  }

  /** The query returns the stored ranges in insertion order, or nothing once the outpoint is spent. */
  lemma QueryMeaning(t: Tables, op: OutPoint)
    requires Inv(t)
    ensures UnspentRanges(t, op) == if Unspent(t, op) then SlicesAt(t, op) else []
    ensures UnspentRanges(t, op) != [] <==> Unspent(t, op)
  {
    forall r | r in t.ranges && r.outpoint == op ensures IsUnspent(t.utxos, KeyOf(r)) == Unspent(t, op) {
      assert KeyOf(r) in t.utxos;
      if k :| IsUnspent(t.utxos, k) && k.outpoint == op {
        assert t.utxos[k] == t.utxos[KeyOf(r)];
      }
    }
    JoinIsRowsAt(t.ranges, t.utxos, op, Unspent(t, op));
    OrderedAlready(RowsAt(t.ranges, op));
    if Unspent(t, op) {
      var k :| IsUnspent(t.utxos, k) && k.outpoint == op;
      var r :| r in t.ranges && KeyOf(r) == k;
      RowsAtMembers(t.ranges, op, r);
    }
  }

  /** A wallet asking for utxo rows and the parser asking for range rows agree on what holds tokens. */
  lemma TokenUtxoTestsAgree(t: Tables, op: OutPoint)
    requires Inv(t)
    ensures UnspentUtxos(t, op) == {} <==> UnspentRanges(t, op) == []
  {
    QueryMeaning(t, op);
    if Unspent(t, op) {
      var k :| IsUnspent(t.utxos, k) && k.outpoint == op;
      assert k in UnspentUtxos(t, op);
    }
  }

  // ---------------------------------------------------------------------------
  // Writing one output
  // ---------------------------------------------------------------------------

  lemma {:induction false} InsertGroupsKeys(
    utxos: map<UtxoKey, UtxoRow>, op: OutPoint, row: UtxoRow, groups: seq<Group>)
    ensures forall k | k in utxos ::
              k in InsertGroups(utxos, op, row, groups) && InsertGroups(utxos, op, row, groups)[k] == utxos[k]
    ensures forall k | k in InsertGroups(utxos, op, row, groups) ::
              k in utxos || (k.outpoint == op && k.group in groups && InsertGroups(utxos, op, row, groups)[k] == row)
    ensures forall g | g in groups :: UtxoKey(op, g) in InsertGroups(utxos, op, row, groups)
  {
    if groups != [] {
      var n := |groups| - 1;
      InsertGroupsKeys(utxos, op, row, groups[..n]);
      assert groups == groups[..n] + [groups[n]];
    }
  }

  /** Rows already at the outpoint carry the same owner, script and creation point, and are unspent. */
  ghost predicate AgreesWith(utxos: map<UtxoKey, UtxoRow>, op: OutPoint, row: UtxoRow) {
    row.spent.None? && forall k | k in utxos && k.outpoint == op :: utxos[k] == row
  }

  ghost predicate Storable(t: Tables, slices: seq<Slice>) {
    forall s | s in slices :: StoredSlice(s) && s.group.collection in t.collections
  }

  lemma WriteKeepsUtxoLinks(t: Tables, op: OutPoint, row: UtxoRow, slices: seq<Slice>)
    requires Inv(t)
    ensures RangesHaveUtxo(WriteOutput(t, op, row, slices))
    ensures UtxosHaveRange(WriteOutput(t, op, row, slices))
  {
    var t' := WriteOutput(t, op, row, slices);
    var groups := UniqueGroups(slices);
    InsertGroupsKeys(t.utxos, op, row, groups);
    InsertRangesMembers(t.ranges, op, slices);
    forall r | r in t'.ranges ensures KeyOf(r) in t'.utxos {
      if r !in t.ranges {
        UniqueGroupsMembers(slices, r.slice.group);
      }
    }
    forall k | k in t'.utxos ensures exists r :: r in t'.ranges && KeyOf(r) == k {
      if k in t.utxos {
        var r :| r in t.ranges && KeyOf(r) == k;
        assert r in t'.ranges;
      } else {
        UniqueGroupsMembers(slices, k.group);
        var i :| 0 <= i < |slices| && slices[i].group == k.group;
        assert slices[i] in slices;
        var r :| r in t'.ranges && r.outpoint == op && r.slice == slices[i];
        assert KeyOf(r) == k;
      }
    }
  }

  lemma WriteKeepsUniform(t: Tables, op: OutPoint, row: UtxoRow, slices: seq<Slice>)
    requires OutpointsUniform(t) && AgreesWith(t.utxos, op, row)
    ensures OutpointsUniform(WriteOutput(t, op, row, slices))
    ensures AgreesWith(WriteOutput(t, op, row, slices).utxos, op, row)
    ensures forall k: UtxoKey | k.outpoint != op ::
              (k in WriteOutput(t, op, row, slices).utxos <==> k in t.utxos)
              && (k in t.utxos ==> WriteOutput(t, op, row, slices).utxos[k] == t.utxos[k])
  {
    InsertGroupsKeys(t.utxos, op, row, UniqueGroups(slices));
  }

  lemma WriteKeepsRanges(t: Tables, op: OutPoint, row: UtxoRow, slices: seq<Slice>)
    requires RangesSound(t) && RangesNumbered(t) && RangesDistinct(t) && Storable(t, slices)
    ensures RangesSound(WriteOutput(t, op, row, slices))
    ensures RangesNumbered(WriteOutput(t, op, row, slices))
    ensures RangesDistinct(WriteOutput(t, op, row, slices))
  {
    InsertRangesMembers(t.ranges, op, slices);
    forall at: OutPoint
      ensures Numbered(RowsAt(WriteOutput(t, op, row, slices).ranges, at))
      ensures Distinct(SlicesAt(WriteOutput(t, op, row, slices), at))
    {
      InsertRangesAt(t.ranges, op, slices, at);
      AppendNewDistinct(SlicesAt(t, at), slices);
    }
  }

  lemma WriteKeepsInv(t: Tables, op: OutPoint, row: UtxoRow, slices: seq<Slice>)
    requires Inv(t) && AgreesWith(t.utxos, op, row) && Storable(t, slices)
    ensures Inv(WriteOutput(t, op, row, slices))
  {
    WriteKeepsUtxoLinks(t, op, row, slices);
    WriteKeepsUniform(t, op, row, slices);
    WriteKeepsRanges(t, op, row, slices);
  }

  lemma UnspentOrAbsent(t: Tables, op: OutPoint, row: UtxoRow)
    requires Inv(t) && AgreesWith(t.utxos, op, row)
    ensures UnspentRanges(t, op) == SlicesAt(t, op)
  {
    QueryMeaning(t, op);
    if SlicesAt(t, op) != [] {
      SlicesAtMembers(t.ranges, op, SlicesAt(t, op)[0]);
      var r :| r in t.ranges && r.outpoint == op;
      assert IsUnspent(t.utxos, KeyOf(r));
    }
  }

  /** Writing an output adds its ranges after those already there and touches no other outpoint. */
  lemma WriteEffect(t: Tables, op: OutPoint, row: UtxoRow, slices: seq<Slice>, at: OutPoint)
    requires Inv(t) && AgreesWith(t.utxos, op, row) && Storable(t, slices)
    ensures Inv(WriteOutput(t, op, row, slices))
    ensures UnspentRanges(WriteOutput(t, op, row, slices), at)
         == if at == op then AppendNew(UnspentRanges(t, at), slices) else UnspentRanges(t, at)
  {
    var t' := WriteOutput(t, op, row, slices);
    WriteKeepsInv(t, op, row, slices);
    WriteKeepsUniform(t, op, row, slices);
    InsertRangesAt(t.ranges, op, slices, at);
    if at == op {
      UnspentOrAbsent(t, op, row);
      UnspentOrAbsent(t', op, row);
    } else {
      QueryMeaning(t, at);
      QueryMeaning(t', at);
      assert Unspent(t, at) <==> Unspent(t', at) by {
        if k :| IsUnspent(t.utxos, k) && k.outpoint == at { assert IsUnspent(t'.utxos, k); }
        if k :| IsUnspent(t'.utxos, k) && k.outpoint == at { assert IsUnspent(t.utxos, k); }
      }
    }
  }

  // ---------------------------------------------------------------------------
  // Spending an outpoint, registering a collection
  // ---------------------------------------------------------------------------

  lemma SpendEffect(t: Tables, op: OutPoint, spend: Spend, at: OutPoint)
    requires Inv(t)
    ensures var t' := t.(utxos := MarkSpent(t.utxos, op, spend));
            && Inv(t')
            && t'.utxos.Keys == t.utxos.Keys
            && UnspentRanges(t', at) == if at == op then [] else UnspentRanges(t, at)
  {
    var t' := t.(utxos := MarkSpent(t.utxos, op, spend));
    assert forall at :: RowsAt(t'.ranges, at) == RowsAt(t.ranges, at);
    assert forall at :: SlicesAt(t', at) == SlicesAt(t, at);
    assert RangesHaveUtxo(t') && UtxosHaveRange(t');
    assert Inv(t');
    hide Inv, UnspentRanges, MarkSpent, Unspent;
    QueryMeaning(t, at);
    QueryMeaning(t', at);
    SpentIsNotUnspent(t, op, spend, at);
  }

  lemma SpentIsNotUnspent(t: Tables, op: OutPoint, spend: Spend, at: OutPoint)
    ensures Unspent(t.(utxos := MarkSpent(t.utxos, op, spend)), at) <==> at != op && Unspent(t, at)
  {
    var t' := t.(utxos := MarkSpent(t.utxos, op, spend));
    if k :| IsUnspent(t.utxos, k) && k.outpoint == at { assert at != op ==> IsUnspent(t'.utxos, k); }
    if k :| IsUnspent(t'.utxos, k) && k.outpoint == at { assert IsUnspent(t.utxos, k); }
  }

  lemma CollectionEffect(t: Tables, key: CollectionKey, c: Collection, at: OutPoint)
    requires Inv(t)
    ensures Inv(t.(collections := t.collections[key := c]))
    ensures UnspentRanges(t.(collections := t.collections[key := c]), at) == UnspentRanges(t, at)
  {
    var t' := t.(collections := t.collections[key := c]);
    assert forall at :: RowsAt(t'.ranges, at) == RowsAt(t.ranges, at);
    assert forall at :: SlicesAt(t', at) == SlicesAt(t, at);
  }
}
