/** A whole block through the parser, inside one open storage transaction. */
module BlockParser {
  import opened Prelude
  import opened Storage
  import opened TableInvariant
  import opened Transactions
  import opened Writes
  import opened Parser
  import Ledger

  // ---------------------------------------------------------------------------
  // What is stored can always be read back
  // ---------------------------------------------------------------------------

  lemma {:induction false} WritesKeepSound(t: Tables, txid: Txid, at: Position, ws: seq<Write>)
    requires RangesSound(t) && Ledger.WritesStorable(t, ws)
    ensures RangesSound(ApplyWrites(t, txid, at, ws))
    ensures ApplyWrites(t, txid, at, ws).collections == t.collections
    decreases |ws|
  {
    if ws != [] {
      var n := |ws| - 1;
      assert ws[n] in ws && forall w | w in ws[..n] :: w in ws;
      WritesKeepSound(t, txid, at, ws[..n]);
      var t1 := ApplyWrites(t, txid, at, ws[..n]);
      InsertRangesMembers(t1.ranges, OutPoint(txid, ws[n].vout), ws[n].slices);
    }
  }

  /** Sound ranges stay sound through any transaction, whatever its id and inputs are. */
  lemma StepKeepsSound(t: Tables, node: Node, tx: Tx, at: Position)
    requires RangesSound(t) && StepTx(t, node, tx, at).Ok?
    ensures RangesSound(StepTx(t, node, tx, at).value)
  {
    var plan := PlanTx(t, node, tx).value;
    Ledger.PlanFits(t, node, tx, at);
    var t1 := WithCollection(AfterSpending(t, tx, at), at, plan.collection);
    forall w | w in plan.writes ensures Storable(t1, w.slices) {
      assert Storable(t, w.slices);
    }
    WritesKeepSound(t1, tx.txid, at, plan.writes);
  }

  lemma {:induction false} RunKeepsSound(t: Tables, node: Node, txs: seq<TxAt>)
    requires RangesSound(t) && RunTxs(t, node, txs).Ok?
    ensures RangesSound(RunTxs(t, node, txs).value)
    decreases |txs|
  {
    if txs != [] {
      var n := |txs| - 1;
      RunKeepsSound(t, node, txs[..n]);
      StepKeepsSound(RunTxs(t, node, txs[..n]).value, node, txs[n].tx, txs[n].at);
    }
  }

  /** A transaction that fails stops the run there. */
  lemma {:induction false} RunStopped(t: Tables, node: Node, txs: seq<TxAt>, n: nat)
    requires n <= |txs| && RunTxs(t, node, txs[..n]).Err?
    ensures RunTxs(t, node, txs) == RunTxs(t, node, txs[..n])
    decreases |txs|
  {
    if n == |txs| {
      assert txs[..n] == txs;
    } else {
      assert txs[..|txs| - 1][..n] == txs[..n];
      RunStopped(t, node, txs[..|txs| - 1], n);
    }
  }

  // ---------------------------------------------------------------------------
  // The code of parse_block
  // ---------------------------------------------------------------------------

  lemma NextTx(t: Tables, node: Node, block: Block, height: nat, i: nat)
    requires RangesSound(t) && i < |block.txs|
    requires RunTxs(t, node, Placed(block, height)[..i]).Ok?
    ensures var before := RunTxs(t, node, Placed(block, height)[..i]).value;
            && RangesSound(before)
            && RunTxs(t, node, Placed(block, height)[..i + 1])
               == StepTx(before, node, block.txs[i], Position(height, i))
  {
    hide *;
    PlacedNext(block, height, i);
    RunKeepsSound(t, node, Placed(block, height)[..i]);
    LastRun(t, node, Placed(block, height)[..i + 1]);
  }

  lemma PlacedNext(block: Block, height: nat, i: nat)
    requires i < |block.txs|
    ensures |Placed(block, height)| == |block.txs|
    ensures Placed(block, height)[..i + 1][..i] == Placed(block, height)[..i]
    ensures Placed(block, height)[..i + 1][i] == TxAt(block.txs[i], Position(height, i))
  {
  }

  lemma LastRun(t: Tables, node: Node, txs: seq<TxAt>)
    requires txs != [] && RunTxs(t, node, txs[..|txs| - 1]).Ok?
    ensures var n := |txs| - 1;
            RunTxs(t, node, txs) == StepTx(RunTxs(t, node, txs[..n]).value, node, txs[n].tx, txs[n].at)
  {
    hide StepTx;
  }

  method ParseBlock(storage: SqliteTx, node: Node, block: Block, height: nat) returns (r: Result<(), Brc721Error>)
    requires RangesSound(storage.Contents()) && WfBlock(block)
    modifies storage
    ensures match RunTxs(old(storage.Contents()), node, Placed(block, height))
            case Ok(t) => r.Ok? && storage.Contents() == t && storage.last == Some(BlockRef(height, block.hash))
            case Err(e) => r == Err(e)
  {
    hide StepTx, RangesSound;
    ghost var t := storage.Contents();
    ghost var txs := Placed(block, height);
    assert RunTxs(t, node, txs[..0]) == Ok(t);
    hide RunTxs;
    for i := 0 to |block.txs|
      invariant RunTxs(t, node, txs[..i]) == Ok(storage.Contents())
    {
      NextTx(t, node, block, height, i);
      var parsed := ParseTx(storage, node, block.txs[i], Position(height, i));
      if parsed.Err? {
        RunStopped(t, node, txs, i + 1);
        return Err(parsed.error);
      }
    }
    assert txs[..|txs|] == txs;
    storage.SaveLast(height, block.hash);
    return Ok(());
  }
}
