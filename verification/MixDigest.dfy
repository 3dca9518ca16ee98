/** The indexer's side of a mix: the checks a transaction must pass, then the sweep, then the rows. */
module MixDigest {
  import opened Prelude
  import opened Tokens
  import opened Storage
  import opened TableInvariant
  import opened Transactions
  import opened MixPayload
  import opened MixRouting
  import opened Writes

  /** Outputs 1 to n exist and can be spent. */
  predicate OutputsSpendable(d: MixData, tx: Tx) {
    forall vout | 1 <= vout <= |d.outputRanges| :: SpendableAt(tx, vout)
  }

  predicate SpendableAt(tx: Tx, vout: nat) {
    vout < |tx.outputs| && tx.outputs[vout].Spendable?
  }

  /** Indices over these ranges can be counted in a `u128`. */
  predicate Countable(rs: seq<Slice>) {
    WfSlices(rs) && |Flatten(rs)| <= U128_MAX
  }

  /** The checks made before any index is counted. */
  predicate MixWellPlaced(d: MixData, tx: Tx, inputs: seq<TokenInput>, prefix: bool) {
    tx.inputs != [] && |tx.outputs| >= |d.outputRanges| + 1 && inputs != [] && prefix
  }

  /**
    What becomes of a mix. `Ok(None)`: rejected, nothing is written. `Ok(Some(parts))`: output k+1 gets
    `parts[k]`. `Err`: the token indices do not fit a `u128`.
    */
  ghost function MixOutcome(d: MixData, tx: Tx, inputs: seq<TokenInput>, prefix: bool)
    : (r: Result<Option<seq<seq<Slice>>>, Brc721Error>)
    ensures r.Ok? && r.value.Some? ==> |r.value.value| == |d.outputRanges| < |tx.outputs| && OutputsSpendable(d, tx)
  {
    var rs := AllRanges(inputs);
    var ts := Flatten(rs);
    if !MixWellPlaced(d, tx, inputs, prefix) then Ok(None)
    else if !Countable(rs) then Err(TxError)
    else if ValidateTokenCount(d, |ts|).Err? || !OutputsSpendable(d, tx) then Ok(None)
    else Ok(Some(seq(|d.outputRanges|, k requires 0 <= k => Compress(Routed(ts, d, k)))))
  }

  function MixWrite(node: Node, tx: Tx, part: seq<Slice>, k: nat): Write
    requires k + 1 < |tx.outputs|
  {
    var script := tx.outputs[k + 1].bytes;
    Write(k + 1, node.hash160(script), script, part)
  }

  function MixWrites(node: Node, tx: Tx, parts: seq<seq<Slice>>): seq<Write>
    requires |parts| < |tx.outputs|
  {
    seq(|parts|, k requires 0 <= k < |parts| => MixWrite(node, tx, parts[k], k))
  }

  lemma {:induction false} TokensBound(rs: seq<Slice>)
    requires forall s | s in rs :: StoredSlice(s)
    ensures |Flatten(rs)| <= |rs| * TWO_96
    decreases |rs|
  {
    if rs != [] {
      var n := |rs| - 1;
      assert rs[n] in rs && forall s | s in rs[..n] :: s in rs;
      TokensBound(rs[..n]);
    }
  }

  /** Indices overflow only with 2^32 input ranges or more; the overflow error needs such a transaction. */
  lemma FewRangesCountable(rs: seq<Slice>)
    requires |rs| <= U32_MAX && forall s | s in rs :: StoredSlice(s)
    ensures Countable(rs)
  {
    TokensBound(rs);
    forall i | 0 <= i < |rs| ensures WfSlice(rs[i]) {
      assert rs[i] in rs;
    }
  }

  // ---------------------------------------------------------------------------
  // Index segments of the inputs
  // ---------------------------------------------------------------------------

  lemma AllRangesPush(inputs: seq<TokenInput>, n: nat)
    requires n < |inputs|
    ensures AllRanges(inputs[..n + 1]) == AllRanges(inputs[..n]) + inputs[n].ranges
  {
    assert inputs[..n + 1][..n] == inputs[..n];
  }

  lemma {:induction false} AllRangesPrefix(inputs: seq<TokenInput>, n: nat)
    requires n <= |inputs|
    ensures AllRanges(inputs[..n]) <= AllRanges(inputs)
    decreases |inputs| - n
  {
    if n == |inputs| {
      assert inputs[..n] == inputs;
    } else {
      AllRangesPush(inputs, n);
      AllRangesPrefix(inputs, n + 1);
    }
  }

  lemma SegmentedPush(rs: seq<Slice>, segments: seq<InputSegment>, s: Slice, segment: InputSegment)
    requires Segmented(rs, segments)
    requires segment == InputSegment(s.group, s.start, |Flatten(rs)|, |Flatten(rs + [s])|)
    ensures Segmented(rs + [s], segments + [segment])
  {
    var rs', segments' := rs + [s], segments + [segment];
    forall j | 0 <= j < |rs'|
      ensures segments'[j]
           == InputSegment(rs'[j].group, rs'[j].start, |Flatten(rs'[..j])|, |Flatten(rs'[..j + 1])|)
    {
      if j < |rs| {
        assert rs'[..j] == rs[..j] && rs'[..j + 1] == rs[..j + 1];
        assert segments'[j] == segments[j];
      } else {
        assert rs'[..j] == rs && rs'[..j + 1] == rs';
      }
    }
  }

  lemma CountablePush(rs: seq<Slice>, s: Slice)
    requires Countable(rs) && s.end <= U128_MAX
    ensures s.start <= s.end ==> |Flatten(rs + [s])| == |Flatten(rs)| + (s.end - s.start + 1)
    ensures Countable(rs + [s]) <==> s.start <= s.end && |Flatten(rs)| + (s.end - s.start + 1) <= U128_MAX
  {
    FlattenPush(rs, s);
    assert (rs + [s])[|rs|] == s;
  }

  lemma CountablePrefix(rs: seq<Slice>, all: seq<Slice>)
    requires rs <= all && Countable(all)
    ensures Countable(rs)
  {
    assert all[..|rs|] == rs;
    FlattenPrefix(all, |rs|);
    assert forall i | 0 <= i < |rs| :: rs[i] == all[i];
  }

  lemma NextPrefix(rs: seq<Slice>, ranges: seq<Slice>, i: nat) returns (next: seq<Slice>)
    requires i < |ranges|
    ensures next == rs + ranges[..i] + [ranges[i]] && next == rs + ranges[..i + 1]
    ensures Countable(rs + ranges) ==> Countable(next)
  {
    next := rs + ranges[..i + 1];
    if Countable(rs + ranges) {
      CountablePrefix(next, rs + ranges);
    }
  }

  /** Continues over the ranges of one input; `rs` are the ranges already done. */
  method SegmentsOfInput(
    ranges: seq<Slice>, segments0: seq<InputSegment>, indexCursor0: nat, ghost rs: seq<Slice>)
    returns (r: Result<(seq<InputSegment>, nat), Brc721Error>)
    requires forall s | s in ranges :: s.end <= U128_MAX
    requires Countable(rs) && Segmented(rs, segments0) && indexCursor0 == |Flatten(rs)|
    ensures if Countable(rs + ranges)
            then r.Ok? && Segmented(rs + ranges, r.value.0) && r.value.1 == |Flatten(rs + ranges)|
            else r == Err(TxError)
  {
    var segments, indexCursor: nat := segments0, indexCursor0;
    ghost var done := rs;
    for i := 0 to |ranges|
      invariant done == rs + ranges[..i]
      invariant Countable(done) && Segmented(done, segments) && indexCursor == |Flatten(done)|
    {
      var range := ranges[i];
      assert range in ranges;
      CountablePush(done, range);
      ghost var next := NextPrefix(rs, ranges, i);
      if range.end < range.start {
        return Err(TxError);
      }
      var len := range.end - range.start + 1;
      if len > U128_MAX || indexCursor + len > U128_MAX {
        return Err(TxError);
      }
      var segment := InputSegment(range.group, range.start, indexCursor, indexCursor + len);
      SegmentedPush(done, segments, range, segment);
      segments := segments + [segment];
      indexCursor := indexCursor + len;
      done := next;
    }
    assert ranges[..|ranges|] == ranges;
    return Ok((segments, indexCursor));
  }

  method BuildSegments(inputs: seq<TokenInput>) returns (r: Result<(seq<InputSegment>, nat), Brc721Error>)
    requires forall i, s | 0 <= i < |inputs| && s in inputs[i].ranges :: s.end <= U128_MAX
    ensures var rs := AllRanges(inputs);
            if Countable(rs)
            then r.Ok? && Segmented(rs, r.value.0) && r.value.1 == |Flatten(rs)|
            else r == Err(TxError)
  {
    var segments: seq<InputSegment>, indexCursor: nat := [], 0;
    for i := 0 to |inputs|
      invariant Countable(AllRanges(inputs[..i])) && Segmented(AllRanges(inputs[..i]), segments)
      invariant indexCursor == |Flatten(AllRanges(inputs[..i]))|
    {
      AllRangesPush(inputs, i);
      AllRangesPrefix(inputs, i + 1);
      var next := SegmentsOfInput(inputs[i].ranges, segments, indexCursor, AllRanges(inputs[..i]));
      if next.Err? {
        if Countable(AllRanges(inputs)) {
          CountablePrefix(AllRanges(inputs[..i + 1]), AllRanges(inputs));
        }
        return Err(next.error);
      }
      segments, indexCursor := next.value.0, next.value.1;
    }
    assert inputs[..|inputs|] == inputs;
    return Ok((segments, indexCursor));
  }

  // ---------------------------------------------------------------------------
  // Saving the outputs
  // ---------------------------------------------------------------------------

  method SaveParts(
    storage: SqliteTx, node: Node, tx: Tx, at: Position, assignments: seq<OutputAssignment>,
    ghost parts: seq<seq<Slice>>)
    requires |assignments| == |parts| < |tx.outputs|
    requires forall k | 0 <= k < |parts| :: assignments[k].slices == parts[k]
    requires forall k, s | 0 <= k < |parts| && s in parts[k] :: StoredSlice(s)
    modifies storage`utxos, storage`ranges
    ensures storage.Contents() == ApplyWrites(old(storage.Contents()), tx.txid, at, MixWrites(node, tx, parts))
  {
    ghost var ws := MixWrites(node, tx, parts);
    for k := 0 to |assignments|
      invariant storage.Contents() == ApplyWrites(old(storage.Contents()), tx.txid, at, ws[..k])
    {
      NextWrite(old(storage.Contents()), tx.txid, at, ws, k);
      var slices := assignments[k].slices;
      if |slices| == 0 {
        continue;
      }
      var vout := k + 1;
      var script := tx.outputs[vout].bytes;
      var row := UtxoRow(node.hash160(script), script, at, None);
      var saved := SaveOutput(storage, OutPoint(tx.txid, vout), row, slices);
    }
    assert ws[..|ws|] == ws;
  }

  lemma PartsStored(inputs: seq<TokenInput>, d: MixData, k: nat, s: Slice)
    requires forall i, s | 0 <= i < |inputs| && s in inputs[i].ranges :: StoredSlice(s)
    requires WfSlices(AllRanges(inputs)) && k < |d.outputRanges|
    requires s in Compress(Routed(Flatten(AllRanges(inputs)), d, k))
    ensures StoredSlice(s)
  {
    var rs := AllRanges(inputs);
    var ts := Flatten(rs);
    var routed := Routed(ts, d, k);
    RoutedMembers(ts, d, k);
    forall t | t in ts ensures t.slot < TWO_96 {
      FlattenCovers(rs, t);
      var j :| 0 <= j < |rs| && Covers(rs[j], t);
      AllRangesMember(inputs, rs[j]);
      assert StoredSlice(rs[j]);
    }
    assert TokensFit(routed) by {
      forall i | 0 <= i < |routed| ensures routed[i].slot <= U128_MAX {
        assert routed[i] in routed;
      }
    }
    CompressFlatten(routed);
    var i :| 0 <= i < |Compress(routed)| && Compress(routed)[i] == s;
    var last := Token(s.group, s.end);
    assert Covers(Compress(routed)[i], last);
    FlattenCovers(Compress(routed), last);
  }

  lemma {:induction false} RoutedMembers(ts: seq<Token>, d: MixData, k: nat)
    ensures forall t | t in Routed(ts, d, k) :: t in ts
  {
    if ts != [] {
      var n := |ts| - 1;
      RoutedMembers(ts[..n], d, k);
      assert ts == ts[..n] + [ts[n]];
    }
  }

  lemma {:induction false} AllRangesMember(inputs: seq<TokenInput>, s: Slice)
    requires s in AllRanges(inputs)
    ensures exists i :: 0 <= i < |inputs| && s in inputs[i].ranges
  {
    var n := |inputs| - 1;
    if s !in inputs[n].ranges {
      AllRangesMember(inputs[..n], s);
      var i :| 0 <= i < n && s in inputs[..n][i].ranges;
      assert s in inputs[i].ranges;
    } else {
      assert s in inputs[n].ranges;
    }
  }

  // ---------------------------------------------------------------------------
  // digest
  // ---------------------------------------------------------------------------

  method CheckOutputs(d: MixData, tx: Tx) returns (ok: bool)
    ensures ok <==> OutputsSpendable(d, tx)
  {
    for k := 0 to |d.outputRanges|
      invariant forall vout | 1 <= vout <= k :: SpendableAt(tx, vout)
    {
      var vout := k + 1;
      if vout >= |tx.outputs| {
        assert !SpendableAt(tx, vout);
        return false;
      }
      if tx.outputs[vout].OpReturn? {
        assert !SpendableAt(tx, vout);
        return false;
      }
    }
    return true;
  }

  method Digest(
    d: MixData, tx: Tx, inputs: seq<TokenInput>, prefix: bool, storage: SqliteTx, node: Node, at: Position)
    returns (r: Result<bool, Brc721Error>)
    requires ValidBasic(d)
    requires forall i, s | 0 <= i < |inputs| && s in inputs[i].ranges :: StoredSlice(s)
    modifies storage`utxos, storage`ranges
    ensures match MixOutcome(d, tx, inputs, prefix)
            case Err(e) => r == Err(e) && storage.Contents() == old(storage.Contents())
            case Ok(None) => r == Ok(false) && storage.Contents() == old(storage.Contents())
            case Ok(Some(parts)) =>
              && r == Ok(true) && |parts| < |tx.outputs|
              && storage.Contents() == ApplyWrites(old(storage.Contents()), tx.txid, at, MixWrites(node, tx, parts))
  {
    // Transaction validation: an input 0, and an output for every entry.
    if |tx.inputs| == 0 || |tx.outputs| < |d.outputRanges| + 1 {
      return Ok(false);
    }
    if |inputs| == 0 {
      return Ok(false);
    }
    if !prefix {
      return Ok(false);
    }
    assert forall i, s | 0 <= i < |inputs| && s in inputs[i].ranges :: StoredSlice(s) ==> s.end <= U128_MAX;
    var built := BuildSegments(inputs);
    if built.Err? {
      return Err(built.error);
    }
    var (segments, totalTokens) := built.value;
    if ValidateTokenCount(d, totalTokens).Err? {
      return Ok(false);
    }
    var spendable := CheckOutputs(d, tx);
    if !spendable {
      return Ok(false);
    }
    ghost var rs := AllRanges(inputs);
    var assignments, cuts := Sweep(d, segments, rs);
    ghost var parts := MixOutcome(d, tx, inputs, prefix).value.value;
    forall k, s | 0 <= k < |parts| && s in parts[k] ensures StoredSlice(s) {
      PartsStored(inputs, d, k, s);
    }
    SaveParts(storage, node, tx, at, assignments, parts);
    return Ok(true);
  }
}
