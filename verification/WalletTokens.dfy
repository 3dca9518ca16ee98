/**
  What the wallet asks the index before it mixes: how many tokens the chosen outpoints hold, and which
  of its other outpoints must not be spent as funds.
  */
module WalletTokens {
  import opened Prelude
  import opened Tokens
  import opened Storage
  import opened TableInvariant
  import opened Transactions
  import opened Parser
  import opened Accounting
  import opened Psbt

  // ---------------------------------------------------------------------------
  // Ranges listed utxo row by utxo row
  // ---------------------------------------------------------------------------

  function RowsOfUtxo(rows: seq<RangeRow>, key: UtxoKey): seq<RangeRow> {
    if rows == [] then []
    else
      var n := |rows| - 1;
      RowsOfUtxo(rows[..n], key) + if KeyOf(rows[n]) == key then [rows[n]] else []
  }

  /** `db_list_ownership_ranges`. */
  function OwnershipRanges(t: Tables, key: UtxoKey): seq<Slice> {
    SlicesOf(OrderBySeq(RowsOfUtxo(t.ranges, key)))
  }

  ghost predicate Enumerates(keys: seq<UtxoKey>, t: Tables, op: OutPoint) {
    && (forall k :: k in keys <==> k in UnspentUtxos(t, op))
    && (forall i, j | 0 <= i < j < |keys| :: keys[i] != keys[j])
  }

  /** `list_unspent_ownership_utxos_by_outpoint`: the order of the rows is left open. */
  method ListUnspentUtxos(t: Tables, op: OutPoint) returns (keys: seq<UtxoKey>)
    ensures Enumerates(keys, t, op)
  {
    keys := [];
    var rest := UnspentUtxos(t, op);
    while rest != {}
      invariant rest <= UnspentUtxos(t, op)
      invariant forall k :: k in keys <==> k in UnspentUtxos(t, op) && k !in rest
      invariant forall i, j | 0 <= i < j < |keys| :: keys[i] != keys[j]
      decreases rest
    {
      var k :| k in rest;
      keys := keys + [k];
      rest := rest - {k};
    }
  }

  // ---------------------------------------------------------------------------
  // Counting by utxo row counts the tokens of the outpoint
  // ---------------------------------------------------------------------------

  function CountRows(rows: seq<RangeRow>): nat {
    if rows == [] then 0 else CountRows(rows[..|rows| - 1]) + |Run(rows[|rows| - 1].slice)|
  }

  lemma CountRowsPush(rows: seq<RangeRow>, r: RangeRow)
    ensures CountRows(rows + [r]) == CountRows(rows) + |Run(r.slice)|
  {
    assert (rows + [r])[..|rows|] == rows;
  }

  lemma {:induction false} CountInsert(r: RangeRow, rows: seq<RangeRow>)
    ensures CountRows(InsertBySeq(r, rows)) == CountRows(rows) + |Run(r.slice)|
    decreases |rows|
  {
    CountRowsPush(rows, r);
    if rows == [] {
      assert [] + [r] == [r];
    } else if rows[|rows| - 1].rangeSeq > r.rangeSeq {
      var n := |rows| - 1;
      CountInsert(r, rows[..n]);
      CountRowsPush(InsertBySeq(r, rows[..n]), rows[n]);
    }
  }

  lemma {:induction false} CountOrdered(rows: seq<RangeRow>)
    ensures CountRows(OrderBySeq(rows)) == CountRows(rows)
    decreases |rows|
  {
    if rows != [] {
      CountOrdered(rows[..|rows| - 1]);
      CountInsert(rows[|rows| - 1], OrderBySeq(rows[..|rows| - 1]));
    }
  }

  lemma {:induction false} CountFlattened(rows: seq<RangeRow>)
    ensures |Flatten(SlicesOf(rows))| == CountRows(rows)
    decreases |rows|
  {
    if rows != [] {
      CountFlattened(rows[..|rows| - 1]);
      assert SlicesOf(rows)[..|rows| - 1] == SlicesOf(rows[..|rows| - 1]);
    }
  }

  function CountUtxos(rows: seq<RangeRow>, keys: seq<UtxoKey>): nat {
    if keys == [] then 0 else CountUtxos(rows, keys[..|keys| - 1]) + CountRows(RowsOfUtxo(rows, keys[|keys| - 1]))
  }

  lemma RowsOfUtxoPush(rows: seq<RangeRow>, r: RangeRow, key: UtxoKey)
    ensures CountRows(RowsOfUtxo(rows + [r], key))
         == CountRows(RowsOfUtxo(rows, key)) + if KeyOf(r) == key then |Run(r.slice)| else 0
  {
    assert (rows + [r])[..|rows|] == rows;
    if KeyOf(r) == key {
      CountRowsPush(RowsOfUtxo(rows, key), r);
    } else {
      assert RowsOfUtxo(rows, key) + [] == RowsOfUtxo(rows, key);
    }
  }

  lemma {:induction false} CountUtxosPush(rows: seq<RangeRow>, r: RangeRow, keys: seq<UtxoKey>)
    requires forall i, j | 0 <= i < j < |keys| :: keys[i] != keys[j]
    ensures CountUtxos(rows + [r], keys) == CountUtxos(rows, keys) + if KeyOf(r) in keys then |Run(r.slice)| else 0
    decreases |keys|
  {
    if keys != [] {
      var n := |keys| - 1;
      CountUtxosPush(rows, r, keys[..n]);
      RowsOfUtxoPush(rows, r, keys[n]);
      assert forall k :: k in keys <==> k in keys[..n] || k == keys[n];
    }
  }

  lemma {:induction false} CountNothing(keys: seq<UtxoKey>)
    ensures CountUtxos([], keys) == 0
    decreases |keys|
  {
    if keys != [] {
      CountNothing(keys[..|keys| - 1]);
    }
  }

  lemma {:induction false} CountJoined(
    rows: seq<RangeRow>, utxos: map<UtxoKey, UtxoRow>, op: OutPoint, keys: seq<UtxoKey>)
    requires forall k :: k in keys <==> IsUnspent(utxos, k) && k.outpoint == op
    requires forall i, j | 0 <= i < j < |keys| :: keys[i] != keys[j]
    ensures CountUtxos(rows, keys) == CountRows(JoinUnspent(rows, utxos, op))
    decreases |rows|
  {
    if rows == [] {
      CountNothing(keys);
    } else {
      var n := |rows| - 1;
      var r := rows[n];
      CountJoined(rows[..n], utxos, op, keys);
      CountUtxosPush(rows[..n], r, keys);
      assert rows == rows[..n] + [r];
      CountRowsPush(JoinUnspent(rows[..n], utxos, op), r);
      assert JoinUnspent(rows[..n], utxos, op) + [] == JoinUnspent(rows[..n], utxos, op);
    }
  }

  /** Adding up the utxo rows of an outpoint, in any order, counts the tokens the parser will see there. */
  lemma UtxoRowsCountTokens(t: Tables, op: OutPoint, keys: seq<UtxoKey>)
    requires Enumerates(keys, t, op)
    ensures CountUtxos(t.ranges, keys) == |TokensAt(t, op)|
  {
    CountJoined(t.ranges, t.utxos, op, keys);
    CountOrdered(JoinUnspent(t.ranges, t.utxos, op));
    CountFlattened(OrderBySeq(JoinUnspent(t.ranges, t.utxos, op)));
  }

  // ---------------------------------------------------------------------------
  // The token count of a mix request
  // ---------------------------------------------------------------------------

  /** The tokens of the chosen outpoints, outpoint by outpoint: what the indices of the request count over. */
  function TokensOf(t: Tables, ops: seq<OutPoint>): seq<Token> {
    if ops == [] then [] else TokensOf(t, ops[..|ops| - 1]) + TokensAt(t, ops[|ops| - 1])
  }

  predicate AllHoldTokens(t: Tables, ops: seq<OutPoint>) {
    forall i | 0 <= i < |ops| :: UnspentUtxos(t, ops[i]) != {}
  }

  lemma TokensOfPrefix(t: Tables, ops: seq<OutPoint>, i: nat)
    requires i < |ops|
    ensures TokensOf(t, ops[..i + 1]) == TokensOf(t, ops[..i]) + TokensAt(t, ops[i])
  {
    assert ops[..i + 1][..i] == ops[..i];
  }

  lemma {:induction false} TokensOfGrows(t: Tables, ops: seq<OutPoint>, i: nat)
    requires i <= |ops|
    ensures |TokensOf(t, ops[..i])| <= |TokensOf(t, ops)|
    decreases |ops| - i
  {
    if i < |ops| {
      TokensOfPrefix(t, ops, i);
      TokensOfGrows(t, ops, i + 1);
    } else {
      assert ops[..i] == ops;
    }
  }

  /** Adds the lengths of the ranges of one utxo row; `Err` when a `u128` overflows. */
  method AddRanges(ranges: seq<Slice>, total0: nat) returns (r: Result<nat, WalletError>)
    requires total0 <= U128_MAX && WfSlices(ranges)
    ensures r == if total0 + |Flatten(ranges)| <= U128_MAX then Ok(total0 + |Flatten(ranges)|) else Err(WalletError)
  {
    var total: nat := total0;
    for i := 0 to |ranges|
      invariant total == total0 + |Flatten(ranges[..i])| <= U128_MAX
    {
      assert ranges[..i + 1][..i] == ranges[..i];
      FlattenGrows(ranges, i + 1);
      if ranges[i].end < ranges[i].start {
        assert false;
      }
      var len := ranges[i].end - ranges[i].start + 1;
      if len > U128_MAX || total + len > U128_MAX {
        return Err(WalletError);
      }
      total := total + len;
    }
    assert ranges[..|ranges|] == ranges;
    return Ok(total);
  }

  lemma {:induction false} FlattenGrows(ranges: seq<Slice>, i: nat)
    requires i <= |ranges|
    ensures |Flatten(ranges[..i])| <= |Flatten(ranges)|
    decreases |ranges| - i
  {
    if i < |ranges| {
      assert ranges[..i + 1][..i] == ranges[..i];
      FlattenGrows(ranges, i + 1);
    } else {
      assert ranges[..i] == ranges;
    }
  }

  lemma RangesOfUtxoWf(t: Tables, key: UtxoKey)
    requires RangesSound(t)
    ensures WfSlices(OwnershipRanges(t, key))
    ensures |Flatten(OwnershipRanges(t, key))| == CountRows(RowsOfUtxo(t.ranges, key))
  {
    var rows := RowsOfUtxo(t.ranges, key);
    RowsOfUtxoMembers(t.ranges, key);
    OrderBySeqMembers(rows);
    forall i | 0 <= i < |OwnershipRanges(t, key)| ensures WfSlice(OwnershipRanges(t, key)[i]) {
      assert OrderBySeq(rows)[i] in t.ranges;
    }
    CountOrdered(rows);
    CountFlattened(OrderBySeq(rows));
  }

  lemma {:induction false} RowsOfUtxoMembers(rows: seq<RangeRow>, key: UtxoKey)
    ensures forall r | r in RowsOfUtxo(rows, key) :: r in rows
    decreases |rows|
  {
    if rows != [] {
      RowsOfUtxoMembers(rows[..|rows| - 1], key);
    }
  }

  lemma CountUtxosStep(rows: seq<RangeRow>, keys: seq<UtxoKey>, i: nat)
    requires i < |keys|
    ensures CountUtxos(rows, keys[..i + 1]) == CountUtxos(rows, keys[..i]) + CountRows(RowsOfUtxo(rows, keys[i]))
  {
    assert keys[..i + 1][..i] == keys[..i];
  }

  lemma {:induction false} CountUtxosGrows(rows: seq<RangeRow>, keys: seq<UtxoKey>, i: nat)
    requires i <= |keys|
    ensures CountUtxos(rows, keys[..i]) <= CountUtxos(rows, keys)
    decreases |keys| - i
  {
    if i < |keys| {
      CountUtxosStep(rows, keys, i);
      CountUtxosGrows(rows, keys, i + 1);
    } else {
      assert keys[..i] == keys;
    }
  }

  method AddOutpoint(t: Tables, op: OutPoint, total0: nat) returns (r: Result<nat, WalletError>)
    requires RangesSound(t) && total0 <= U128_MAX
    ensures r == if UnspentUtxos(t, op) != {} && total0 + |TokensAt(t, op)| <= U128_MAX
                 then Ok(total0 + |TokensAt(t, op)|) else Err(WalletError)
  {
    hide CountUtxos, RowsOfUtxo, OwnershipRanges, RangesSound, TokensAt;
    var keys := ListUnspentUtxos(t, op);
    if |keys| == 0 {
      assert UnspentUtxos(t, op) == {};
      return Err(WalletError);
    }
    assert keys[0] in UnspentUtxos(t, op);
    UtxoRowsCountTokens(t, op, keys);
    var total: nat := total0;
    CountNoUtxos(t.ranges, keys);
    for i := 0 to |keys|
      invariant total == total0 + CountUtxos(t.ranges, keys[..i]) <= U128_MAX
    {
      RangesOfUtxoWf(t, keys[i]);
      CountUtxosStep(t.ranges, keys, i);
      CountUtxosGrows(t.ranges, keys, i + 1);
      var added := AddRanges(OwnershipRanges(t, keys[i]), total);
      if added.Err? {
        return added;
      }
      total := added.value;
    }
    assert keys[..|keys|] == keys;
    return Ok(total);
  }

  lemma CountNoUtxos(rows: seq<RangeRow>, keys: seq<UtxoKey>)
    ensures CountUtxos(rows, keys[..0]) == 0
  {
  }

  /** `total_tokens` in `run_mix`. */
  method CountTokens(t: Tables, ops: seq<OutPoint>) returns (r: Result<nat, WalletError>)
    requires RangesSound(t)
    ensures r == if AllHoldTokens(t, ops) && |TokensOf(t, ops)| <= U128_MAX
                 then Ok(|TokensOf(t, ops)|) else Err(WalletError)
  {
    hide TokensAt, UnspentUtxos, RangesSound;
    var total: nat := 0;
    assert TokensOf(t, ops[..0]) == [];
    hide TokensOf;
    for i := 0 to |ops|
      invariant AllHoldTokens(t, ops[..i])
      invariant total == |TokensOf(t, ops[..i])| <= U128_MAX
    {
      TokensOfPrefix(t, ops, i);
      TokensOfGrows(t, ops, i + 1);
      var added := AddOutpoint(t, ops[i], total);
      if added.Err? {
        return added;
      }
      total := added.value;
      assert AllHoldTokens(t, ops[..i + 1]);
    }
    assert ops[..|ops|] == ops;
    return Ok(total);
  }

  // ---------------------------------------------------------------------------
  // The lock set
  // ---------------------------------------------------------------------------

  /** The wallet's token outpoints that are not being spent. */
  function LockSet(t: Tables, walletUtxos: seq<OutPoint>, spending: seq<OutPoint>): set<OutPoint> {
    set op | op in walletUtxos && UnspentUtxos(t, op) != {} && op !in spending
  }

  method TokenOutpointsToLock(t: Tables, walletUtxos: seq<OutPoint>, spending: seq<OutPoint>)
    returns (lock: set<OutPoint>)
    ensures lock == LockSet(t, walletUtxos, spending)
  {
    var spendingSet := set op | op in spending;
    var walletTokens: set<OutPoint> := {};
    for i := 0 to |walletUtxos|
      invariant walletTokens == set op | op in walletUtxos[..i] && UnspentUtxos(t, op) != {}
    {
      assert forall op :: op in walletUtxos[..i + 1] <==> op in walletUtxos[..i] || op == walletUtxos[i];
      if UnspentUtxos(t, walletUtxos[i]) == {} {
        continue;
      }
      walletTokens := walletTokens + {walletUtxos[i]};
    }
    assert walletUtxos[..|walletUtxos|] == walletUtxos;
    return walletTokens - spendingSet;
  }

  /** The lock set: the outpoints of the wallet that hold tokens and are not being spent. */
  lemma LockedIff(t: Tables, walletUtxos: seq<OutPoint>, spending: seq<OutPoint>, op: OutPoint)
    requires Inv(t)
    ensures op in LockSet(t, walletUtxos, spending)
      <==> op in walletUtxos && op !in spending && exists x :: HeldAt(t, op, x)
  {
    TokenUtxoTestsAgree(t, op);
    HoldsSomething(t, op);
  }

  lemma HoldsSomething(t: Tables, op: OutPoint)
    requires Inv(t)
    ensures UnspentRanges(t, op) != [] <==> exists x :: HeldAt(t, op, x)
  {
    if UnspentRanges(t, op) != [] {
      var s := UnspentRanges(t, op)[0];
      var x := Token(s.group, s.start);
      UnspentRangesStorable(t, op);
      assert s in UnspentRanges(t, op);
      assert Covers(s, x);
      FlattenCovers(UnspentRanges(t, op), x);
      assert HeldAt(t, op, x);
    }
  }

  /** A wallet outpoint that is neither chosen nor locked holds no tokens for the parser. */
  lemma UnlockedIsPlain(t: Tables, walletUtxos: seq<OutPoint>, spending: seq<OutPoint>, op: OutPoint)
    requires Inv(t)
    requires op in walletUtxos && op !in spending && op !in LockSet(t, walletUtxos, spending)
    ensures UnspentRanges(t, op) == [] && !HoldsTokens(t, op)
  {
    TokenUtxoTestsAgree(t, op);
  }

  // ---------------------------------------------------------------------------
  // The parser sees the same tokens, in the same order
  // ---------------------------------------------------------------------------

  lemma {:induction false} ParserSeesTokens(t: Tables, ops: seq<OutPoint>)
    requires Inv(t) && AllHoldTokens(t, ops) && NULL_OUTPOINT !in ops
    ensures Flatten(AllRanges(TokenInputs(t, ops))) == TokensOf(t, ops)
    ensures |TokenInputs(t, ops)| == |ops|
    decreases |ops|
  {
    if ops != [] {
      var n := |ops| - 1;
      assert AllHoldTokens(t, ops[..n]) && UnspentUtxos(t, ops[n]) != {} && ops[n] != NULL_OUTPOINT;
      ParserSeesTokens(t, ops[..n]);
      TokenUtxoTestsAgree(t, ops[n]);
      var before := TokenInputs(t, ops[..n]);
      var input := TokenInput(ops[n], UnspentRanges(t, ops[n]));
      assert (before + [input])[..|before|] == before;
      FlattenConcat(AllRanges(before), input.ranges);
    }
  }

  lemma {:induction false} PlainInputsAddNothing(t: Tables, ops: seq<OutPoint>, rest: seq<OutPoint>)
    requires forall op | op in rest :: !HoldsTokens(t, op)
    ensures TokenInputs(t, ops + rest) == TokenInputs(t, ops)
    decreases |rest|
  {
    if rest == [] {
      assert ops + rest == ops;
    } else {
      var n := |rest| - 1;
      assert rest[n] in rest && forall op | op in rest[..n] :: op in rest;
      PlainInputsAddNothing(t, ops, rest[..n]);
      assert (ops + rest)[..|ops + rest| - 1] == ops + rest[..n];
      assert TokenInputs(t, ops) + [] == TokenInputs(t, ops);
    }
  }

  lemma ChosenFirst(t: Tables, ops: seq<OutPoint>, rest: seq<OutPoint>)
    requires Inv(t) && AllHoldTokens(t, ops)
    requires forall op | op in rest :: !HoldsTokens(t, op)
    ensures TokensFirst(t, ops + rest)
  {
    var ins := ops + rest;
    forall i, j | 0 <= i < j < |ins| && IsPlain(t, ins[i]) ensures !HoldsTokens(t, ins[j]) {
      if i < |ops| {
        TokenUtxoTestsAgree(t, ops[i]);
        assert false;
      } else {
        assert ins[j] == rest[j - |ops|];
      }
    }
  }
}
