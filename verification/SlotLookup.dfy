/** Finding the unspent outpoint that holds a slot. */
module SlotLookup {
  import opened Prelude
  import opened Slot96
  import opened Tokens
  import opened Storage
  import opened TableInvariant
  import opened Accounting
  import opened SingleHolder

  /** A row the query may return: unspent, of the group, with a range that contains the slot as a number. */
  predicate Candidate(t: Tables, key: UtxoKey, group: Group, slot: nat) {
    && IsUnspent(t.utxos, key) && key.group == group
    && exists r | r in t.ranges :: KeyOf(r) == key && r.slice.start <= slot <= r.slice.end
  }

  /** `ORDER BY created_height DESC, created_tx_index DESC`. */
  predicate Later(a: Position, b: Position) {
    a.height > b.height || (a.height == b.height && a.txIndex > b.txIndex)
  }

  /** The WHERE clause: the blobs are compared, not the numbers. */
  predicate Matches(utxos: map<UtxoKey, UtxoRow>, r: RangeRow, group: Group, slotBlob: seq<byte>) {
    && r.slice.group == group && IsUnspent(utxos, KeyOf(r))
    && BlobLe(EncodeSlot96(r.slice.start), slotBlob) && BlobLe(slotBlob, EncodeSlot96(r.slice.end))
  }

  lemma MatchesNumerically(utxos: map<UtxoKey, UtxoRow>, r: RangeRow, group: Group, slot: nat)
    requires StoredSlice(r.slice)
    ensures Matches(utxos, r, group, EncodeSlot96(slot))
      <==> r.slice.group == group && IsUnspent(utxos, KeyOf(r)) && r.slice.start <= Stored(slot) <= r.slice.end
  {
    StoredSlot(r.slice.start);
    StoredSlot(r.slice.end);
    BlobOrderIsNumeric(EncodeSlot96(r.slice.start), EncodeSlot96(slot));
    BlobOrderIsNumeric(EncodeSlot96(slot), EncodeSlot96(r.slice.end));
  }

  lemma MatchIsCandidate(t: Tables, i: nat, group: Group, slot: nat)
    requires RangesSound(t) && i < |t.ranges| && Matches(t.utxos, t.ranges[i], group, EncodeSlot96(slot))
    ensures Candidate(t, KeyOf(t.ranges[i]), group, Stored(slot)) && KeyOf(t.ranges[i]) in t.utxos
  {
    assert t.ranges[i] in t.ranges;
    MatchesNumerically(t.utxos, t.ranges[i], group, slot);
  }

  lemma CandidateIsMatch(t: Tables, k: UtxoKey, group: Group, slot: nat) returns (i: nat)
    requires RangesSound(t) && Candidate(t, k, group, Stored(slot))
    ensures i < |t.ranges| && KeyOf(t.ranges[i]) == k && Matches(t.utxos, t.ranges[i], group, EncodeSlot96(slot))
  {
    var r :| r in t.ranges && KeyOf(r) == k && r.slice.start <= Stored(slot) <= r.slice.end;
    MatchesNumerically(t.utxos, r, group, slot);
    i :| 0 <= i < |t.ranges| && t.ranges[i] == r;
  }

  /** `found` is a latest match among the first `n` rows, or there is none. */
  ghost predicate LatestMatch(t: Tables, group: Group, slot: nat, n: nat, found: Option<UtxoKey>)
    requires n <= |t.ranges|
  {
    && (found.Some? ==> Candidate(t, found.value, group, Stored(slot)))
    && forall i | 0 <= i < n && Matches(t.utxos, t.ranges[i], group, EncodeSlot96(slot)) ::
         && found.Some? && KeyOf(t.ranges[i]) in t.utxos
         && !Later(t.utxos[KeyOf(t.ranges[i])].created, t.utxos[found.value].created)
  }

  lemma LaterOrder(a: Position, b: Position, c: Position)
    ensures !Later(a, a)
    ensures Later(a, b) && !Later(c, b) ==> !Later(c, a)
  {
  }

  lemma LaterMeans(a: Position, b: Position)
    ensures !Later(a, b) <==> a.height < b.height || (a.height == b.height && a.txIndex <= b.txIndex)
  {
  }

  /** A row is skipped when it does not match, or was not created later than the one found. */
  lemma LatestSkips(t: Tables, group: Group, slot: nat, n: nat, found: Option<UtxoKey>)
    requires RangesSound(t) && n < |t.ranges| && LatestMatch(t, group, slot, n, found)
    requires Matches(t.utxos, t.ranges[n], group, EncodeSlot96(slot)) ==>
      && found.Some? && KeyOf(t.ranges[n]) in t.utxos
      && !Later(t.utxos[KeyOf(t.ranges[n])].created, t.utxos[found.value].created)
    ensures LatestMatch(t, group, slot, n + 1, found)
  {
    hide Matches, Candidate, Later, Stored, RangesSound;
  }

  lemma LatestTakes(t: Tables, group: Group, slot: nat, n: nat, found: Option<UtxoKey>)
    requires RangesSound(t) && n < |t.ranges| && LatestMatch(t, group, slot, n, found)
    requires Matches(t.utxos, t.ranges[n], group, EncodeSlot96(slot)) && KeyOf(t.ranges[n]) in t.utxos
    requires found.Some? ==> Later(t.utxos[KeyOf(t.ranges[n])].created, t.utxos[found.value].created)
    ensures LatestMatch(t, group, slot, n + 1, Some(KeyOf(t.ranges[n])))
  {
    MatchIsCandidate(t, n, group, slot);
    hide Matches, Candidate, Later, Stored, RangesSound;
    var key := KeyOf(t.ranges[n]);
    forall i | 0 <= i < n + 1 && Matches(t.utxos, t.ranges[i], group, EncodeSlot96(slot))
      ensures KeyOf(t.ranges[i]) in t.utxos && !Later(t.utxos[KeyOf(t.ranges[i])].created, t.utxos[key].created)
    {
      LaterOrder(t.utxos[key].created, t.utxos[key].created, t.utxos[key].created);
      if i < n {
        LaterOrder(
          t.utxos[key].created, t.utxos[found.value].created, t.utxos[KeyOf(t.ranges[i])].created);
      }
    }
  }

  lemma LatestOfAll(t: Tables, group: Group, slot: nat, found: Option<UtxoKey>)
    requires RangesSound(t) && LatestMatch(t, group, slot, |t.ranges|, found)
    ensures found.None? <==> forall k :: !Candidate(t, k, group, Stored(slot))
    ensures found.Some? ==> Candidate(t, found.value, group, Stored(slot))
    ensures found.Some? ==>
      forall k | Candidate(t, k, group, Stored(slot)) :: !Later(t.utxos[k].created, t.utxos[found.value].created)
  {
    forall k | Candidate(t, k, group, Stored(slot))
      ensures found.Some? && !Later(t.utxos[k].created, t.utxos[found.value].created)
    {
      var i := CandidateIsMatch(t, k, group, slot);
    }
  }

  /** Finds a row exactly when some unspent range contains the slot, and then one created last. */
  method FindUnspentOwnershipUtxoForSlot(t: Tables, group: Group, slot: nat) returns (found: Option<UtxoKey>)
    requires RangesSound(t)
    ensures found.None? <==> forall k :: !Candidate(t, k, group, Stored(slot))
    ensures found.Some? ==> Candidate(t, found.value, group, Stored(slot))
    ensures found.Some? ==>
      forall k | Candidate(t, k, group, Stored(slot)) ::
        || t.utxos[k].created.height < t.utxos[found.value].created.height
        || (&& t.utxos[k].created.height == t.utxos[found.value].created.height
            && t.utxos[k].created.txIndex <= t.utxos[found.value].created.txIndex)
    ensures slot < TWO_96 ==> Stored(slot) == slot
  {
    if slot < TWO_96 {
      StoredSlot(slot);
    }
    hide Stored, Later, Matches, RangesSound;
    var slotBlob := EncodeSlot96(slot);
    found := None;
    for i := 0 to |t.ranges|
      invariant LatestMatch(t, group, slot, i, found)
    {
      var r := t.ranges[i];
      if Matches(t.utxos, r, group, slotBlob) {
        MatchIsCandidate(t, i, group, slot);
        if found.None? || Later(t.utxos[KeyOf(r)].created, t.utxos[found.value].created) {
          LatestTakes(t, group, slot, i, found);
          found := Some(KeyOf(r));
        } else {
          LatestSkips(t, group, slot, i, found);
        }
      } else {
        LatestSkips(t, group, slot, i, found);
      }
    }
    LatestOfAll(t, group, slot, found);
    forall k | Candidate(t, k, group, Stored(slot))
      ensures
        || t.utxos[k].created.height < t.utxos[found.value].created.height
        || (&& t.utxos[k].created.height == t.utxos[found.value].created.height
            && t.utxos[k].created.txIndex <= t.utxos[found.value].created.txIndex)
    {
      LaterMeans(t.utxos[k].created, t.utxos[found.value].created);
    }
  }

  /** Being a candidate is holding the token. */
  lemma CandidateHolds(t: Tables, k: UtxoKey, slot: nat)
    requires Inv(t)
    ensures Candidate(t, k, k.group, slot) <==> HeldAt(t, k.outpoint, Token(k.group, slot))
  {
    var x := Token(k.group, slot);
    QueryMeaning(t, k.outpoint);
    FlattenCovers(UnspentRanges(t, k.outpoint), x);
    if Candidate(t, k, k.group, slot) {
      var r :| r in t.ranges && KeyOf(r) == k && r.slice.start <= slot <= r.slice.end;
      SlicesAtMembers(t.ranges, k.outpoint, r.slice);
      var i :| 0 <= i < |SlicesAt(t, k.outpoint)| && SlicesAt(t, k.outpoint)[i] == r.slice;
      assert Covers(UnspentRanges(t, k.outpoint)[i], x);
    }
    if HeldAt(t, k.outpoint, x) {
      var i :| 0 <= i < |UnspentRanges(t, k.outpoint)| && Covers(UnspentRanges(t, k.outpoint)[i], x);
      HolderIsCandidate(t, k, slot, UnspentRanges(t, k.outpoint)[i]);
    }
  }

  lemma HolderIsCandidate(t: Tables, k: UtxoKey, slot: nat, s: Slice)
    requires Inv(t) && Unspent(t, k.outpoint) && s in SlicesAt(t, k.outpoint) && Covers(s, Token(k.group, slot))
    ensures Candidate(t, k, k.group, slot)
  {
    SlicesAtMembers(t.ranges, k.outpoint, s);
    var r :| r in t.ranges && r.outpoint == k.outpoint && r.slice == s;
    assert KeyOf(r) == k;
    var l :| IsUnspent(t.utxos, l) && l.outpoint == k.outpoint;
    assert t.utxos[l] == t.utxos[k];
  }

  /** Under single holding the lookup names the one outpoint that holds the slot. */
  lemma LookupNamesTheHolder(t: Tables, k: UtxoKey, group: Group, slot: nat, op: OutPoint)
    requires Inv(t) && Single(t)
    requires Candidate(t, k, group, slot)
    ensures HeldAt(t, op, Token(group, slot)) <==> op == k.outpoint
  {
    CandidateHolds(t, k, slot);
  }
}
