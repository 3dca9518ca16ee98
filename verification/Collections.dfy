/** The collection table: which collections are known, and as what, after a block and after any history. */
module Collections {
  import opened Prelude
  import opened Tokens
  import opened Storage
  import opened Transactions
  import opened Payload
  import opened Parser
  import opened Indexer
  import opened Chain
  import opened Confluence
  import Ledger

  /** The collection a transaction registers. */
  ghost function RegisteredBy(tx: Tx): Option<Collection> {
    if TxPayload(tx).Some? && TxPayload(tx).value.RegisterCollection?
    then
      var c := TxPayload(tx).value.collection;
      Some(Collection(c.evmCollectionAddress, c.rebaseable))
    else None
  }

  /** The bytes that register a collection: command 0, the twenty address bytes, and a flag of 0 or 1. */
  lemma RegisteredByIff(tx: Tx, c: Collection)
    ensures RegisteredBy(tx) == Some(c)
      <==> && tx.outputs != [] && tx.outputs[0].OpReturn?
           && tx.outputs[0].payload == Some([0] + c.evmAddress + [if c.rebaseable then 1 else 0])
  {
    var d := RegisterCollectionData(c.evmAddress, c.rebaseable);
    var bytes := [0] + c.evmAddress + [if c.rebaseable then 1 else 0];
    assert EncodePayload(RegisterCollection(d)) == bytes;
    CarriesIff(tx, RegisterCollection(d));
    if RegisteredBy(tx) == Some(c) {
      assert TxPayload(tx).value.collection == d;
    }
  }

  function LookUp(collections: map<CollectionKey, Collection>, key: CollectionKey): Option<Collection> {
    if key in collections then Some(collections[key]) else None
  }

  /** Transaction `key.txIndex` of these, the first `n` of the block at `height`. */
  predicate InBlock(height: nat, n: nat, key: CollectionKey) {
    key.height == height && key.txIndex < n
  }

  lemma StepLookUp(t: Tables, node: Node, tx: Tx, at: Position, key: CollectionKey)
    requires StepTx(t, node, tx, at).Ok?
    ensures LookUp(StepTx(t, node, tx, at).value.collections, key)
         == if key == CollectionKey(at.height, at.txIndex) && RegisteredBy(tx).Some? then RegisteredBy(tx)
            else LookUp(t.collections, key)
  {
    hide StepTx, TxPayload;
    Ledger.StepCollections(t, node, tx, at);
  }

  lemma WholeBlock(block: Block, height: nat)
    ensures |Placed(block, height)| == |block.txs|
    ensures Placed(block, height)[..|block.txs|] == Placed(block, height)
  {
  }

  lemma PlacedLast(block: Block, height: nat, n: nat)
    requires 0 < n <= |block.txs|
    ensures |Placed(block, height)[..n]| == n
    ensures Placed(block, height)[..n][..n - 1] == Placed(block, height)[..n - 1]
    ensures Placed(block, height)[..n][n - 1] == TxAt(block.txs[n - 1], Position(height, n - 1))
  {
  }

  /** A block adds the collections its transactions register, each under the block's height and its own index. */
  lemma {:induction false} BlockCollections(
    t: Tables, node: Node, block: Block, height: nat, n: nat, key: CollectionKey)
    requires n <= |block.txs| && RunTxs(t, node, Placed(block, height)[..n]).Ok?
    ensures LookUp(RunTxs(t, node, Placed(block, height)[..n]).value.collections, key)
         == if InBlock(height, n, key) && RegisteredBy(block.txs[key.txIndex]).Some?
            then RegisteredBy(block.txs[key.txIndex]) else LookUp(t.collections, key)
    decreases n
  {
    hide StepTx, RegisteredBy, LookUp, Placed;
    WholeBlock(block, height);
    if n > 0 {
      PlacedLast(block, height, n);
      BlockCollections(t, node, block, height, n - 1, key);
      var before := RunTxs(t, node, Placed(block, height)[..n - 1]).value;
      StepLookUp(before, node, block.txs[n - 1], Position(height, n - 1), key);
    } else {
      assert Placed(block, height)[..n] == [];
    }
  }

  /** Transaction `key.txIndex` of one of the `n` blocks from `start` on. */
  predicate InChain(chain: nat -> Block, start: nat, n: nat, key: CollectionKey) {
    start <= key.height < start + n && key.txIndex < |chain(key.height).txs|
  }

  lemma {:induction false} RunCollections(
    chain: nat -> Block, node: Node, start: nat, n: nat, key: CollectionKey)
    requires RunTxs(EMPTY_TABLES, node, ChainTxs(chain, start, n)).Ok?
    ensures LookUp(RunTxs(EMPTY_TABLES, node, ChainTxs(chain, start, n)).value.collections, key)
         == if InChain(chain, start, n, key) then RegisteredBy(chain(key.height).txs[key.txIndex]) else None
    decreases n
  {
    hide RunTxs, RegisteredBy, Placed;
    if n == 0 {
      NothingRun(chain, node, start);
    } else {
      var height := start + n - 1;
      var block := chain(height);
      var before := ChainTxs(chain, start, n - 1);
      RunPrefix(EMPTY_TABLES, node, before, Placed(block, height));
      RunConcat(EMPTY_TABLES, node, before, Placed(block, height));
      RunCollections(chain, node, start, n - 1, key);
      WholeBlock(block, height);
      BlockCollections(RunTxs(EMPTY_TABLES, node, before).value, node, block, height, |block.txs|, key);
    }
  }

  lemma {:induction false} RunPrefix(t: Tables, node: Node, a: seq<TxAt>, b: seq<TxAt>)
    requires RunTxs(t, node, a + b).Ok?
    ensures RunTxs(t, node, a).Ok?
    decreases |b|
  {
    hide StepTx;
    if b == [] {
      assert a + b == a;
    } else {
      assert (a + b)[..|a + b| - 1] == a + b[..|b| - 1];
      RunPrefix(t, node, a, b[..|b| - 1]);
    }
  }

  /**
    After any sessions against a chain, the known collections are those its transactions register, each
    under the height and index of its transaction: nothing more, nothing less.
    */
  lemma CollectionTable(sessions: seq<Session>, chain: nat -> Block, node: Node, start: nat, key: CollectionKey)
    returns (n: nat)
    requires Faithful(sessions, chain, node, start)
    ensures var db := RunSessions(sessions).db;
            && db.last == (if n == 0 then None else Some(BlockRef(start + n - 1, chain(start + n - 1).hash)))
            && LookUp(db.tables.collections, key)
               == if InChain(chain, start, n, key) then RegisteredBy(chain(key.height).txs[key.txIndex]) else None
  {
    n := CommittedIsFold(sessions, chain, node, start);
    FoldIsRun(chain, node, start, n);
    hide *;
    RunCollections(chain, node, start, n, key);
  }
}
