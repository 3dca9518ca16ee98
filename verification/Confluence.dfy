/**
  One chain, one index. When the node always answers from one fixed chain, the committed state is the
  fold of that chain block by block, whatever the sessions were; so every theorem about runs of
  transactions holds of every database the daemon can leave behind.
  */
module Confluence {
  import opened Prelude
  import opened Tokens
  import opened Storage
  import opened TableInvariant
  import opened Transactions
  import opened Payload
  import opened Parser
  import opened Scanner
  import opened Indexer
  import opened Chain
  import opened Accounting
  import opened SingleHolder
  import opened Placement
  import BlockParser
  import RegisterDigest
  import MixDigest

  // ---------------------------------------------------------------------------
  // A node that knows more changes nothing
  // ---------------------------------------------------------------------------

  /** `part` answers some of the lookups that `full` answers, and answers them alike. */
  ghost predicate Knows(part: Node, full: Node) {
    && part.hash160 == full.hash160
    && forall txid | txid in part.raw :: txid in full.raw && full.raw[txid] == part.raw[txid]
  }

  lemma SameTransfers(part: Node, full: Node, tx: Tx, inputs: seq<TokenInput>)
    requires Knows(part, full)
    ensures Transfers(part, tx, inputs) == Transfers(full, tx, inputs)
  {
    assert forall j | 0 <= j < |inputs| :: Transfer(part, tx, inputs[j], j) == Transfer(full, tx, inputs[j], j);
  }

  lemma SameMixWrites(part: Node, full: Node, tx: Tx, parts: seq<seq<Slice>>)
    requires Knows(part, full) && |parts| < |tx.outputs|
    ensures MixDigest.MixWrites(part, tx, parts) == MixDigest.MixWrites(full, tx, parts)
  {
    assert forall k | 0 <= k < |parts| ::
      MixDigest.MixWrite(part, tx, parts[k], k) == MixDigest.MixWrite(full, tx, parts[k], k);
  }

  lemma SameRegistration(
    collections: map<CollectionKey, Collection>, part: Node, full: Node, tx: Tx,
    d: RegisterDigest.Ownership.RegisterOwnershipData)
    requires Knows(part, full) && RegisterDigest.Ownership.Valid(d) && |d.groups| < |tx.outputs|
    requires RegisterDigest.RegisterOutcome(collections, part, tx, d).Ok?
    ensures RegisterDigest.RegisterOutcome(collections, full, tx, d)
         == RegisterDigest.RegisterOutcome(collections, part, tx, d)
  {
    if RegisterDigest.CollectionOf(d) in collections {
      var base := RegisterDigest.BaseH160(part, tx).value;
      assert RegisterDigest.BaseH160(full, tx) == Ok(base);
      var group := Group(RegisterDigest.CollectionOf(d), base);
      assert forall k | 0 <= k < |d.groups| ::
        RegisterDigest.RegisterWrite(part, tx, group, d.groups[k], k)
        == RegisterDigest.RegisterWrite(full, tx, group, d.groups[k], k);
      assert RegisterDigest.RegisterWrites(part, tx, group, d.groups)
          == RegisterDigest.RegisterWrites(full, tx, group, d.groups);
    }
  }

  lemma PlanAgrees(t: Tables, part: Node, full: Node, tx: Tx)
    requires Knows(part, full) && PlanTx(t, part, tx).Ok?
    ensures PlanTx(t, full, tx) == PlanTx(t, part, tx)
  {
    var inputs := TokenInputs(t, tx.inputs);
    SameTransfers(part, full, tx, inputs);
    if TxPayload(tx).Some? {
      PayloadValid(tx);
      match TxPayload(tx).value
      case Mix(d) =>
        var outcome := MixDigest.MixOutcome(d, tx, inputs, TokensFirst(t, tx.inputs)).value;
        if outcome.Some? {
          SameMixWrites(part, full, tx, outcome.value);
        }
      case RegisterCollection(_) =>
      case RegisterOwnership(d) =>
        SameRegistration(t.collections, part, full, tx, d);
    }
  }

  lemma {:induction false} RunAgrees(t: Tables, part: Node, full: Node, txs: seq<TxAt>)
    requires Knows(part, full) && RunTxs(t, part, txs).Ok?
    ensures RunTxs(t, full, txs) == RunTxs(t, part, txs)
    decreases |txs|
  {
    if txs != [] {
      var n := |txs| - 1;
      RunAgrees(t, part, full, txs[..n]);
      PlanAgrees(RunTxs(t, part, txs[..n]).value, part, full, txs[n].tx);
    }
  }

  // ---------------------------------------------------------------------------
  // Sessions against one chain
  // ---------------------------------------------------------------------------

  ghost predicate RoundFaithful(round: Round, chain: nat -> Block, node: Node) {
    && (forall i: nat :: Knows(round.node(i), node))
    && (forall k: nat, i: nat, h: nat | k < |round.passes| && h in round.passes[k].polls(i).blocks ::
          round.passes[k].polls(i).blocks[h] == chain(h))
  }

  ghost predicate RoundsFaithful(rounds: seq<Round>, chain: nat -> Block, node: Node) {
    forall r | 0 <= r < |rounds| :: RoundFaithful(rounds[r], chain, node)
  }

  /** Every session starts from the same configured height, and every answer agrees with the chain. */
  ghost predicate Faithful(sessions: seq<Session>, chain: nat -> Block, node: Node, start: nat) {
    forall s | 0 <= s < |sessions| ::
      sessions[s].start == start && RoundsFaithful(sessions[s].rounds, chain, node)
  }

  /** Entry `i` is block `start + i` of the chain, parsed with a node that knows no more than `node`. */
  ghost predicate FollowsChain(log: seq<Indexed>, chain: nat -> Block, node: Node, start: nat) {
    forall i | 0 <= i < |log| ::
      log[i].height == start + i && log[i].block == chain(start + i) && Knows(log[i].node, node)
  }

  ghost function ChainLog(chain: nat -> Block, node: Node, start: nat, n: nat): seq<Indexed> {
    seq(n, i requires 0 <= i => Indexed(start + i, chain(start + i), node))
  }

  lemma AddedFollows(
    db: Db, confirmations: nat, height: nat, batchSize: nat, round: Round, chain: nat -> Block, node: Node, i: nat)
    requires RoundFaithful(round, chain, node)
    requires StepRound(db, confirmations, height, batchSize, round).Ok?
    requires i < |StepRound(db, confirmations, height, batchSize, round).value.1|
    ensures var e := StepRound(db, confirmations, height, batchSize, round).value.1[i];
            e.height == height + i && e.block == chain(height + i) && Knows(e.node, node)
  {
    hide IndexBatch;
    var k := BatchConfirmed(round.passes, confirmations, height, batchSize, i);
  }

  lemma FollowsConcat(log: seq<Indexed>, added: seq<Indexed>, chain: nat -> Block, node: Node, start: nat)
    requires FollowsChain(log, chain, node, start) && FollowsChain(added, chain, node, start + |log|)
    ensures FollowsChain(log + added, chain, node, start)
  {
  }

  lemma RoundFollows(
    h: History, confirmations: nat, batchSize: nat, round: Round, chain: nat -> Block, node: Node, start: nat)
    requires FollowsChain(h.log, chain, node, start) && RoundFaithful(round, chain, node)
    requires StepRound(h.db, confirmations, start + |h.log|, batchSize, round).Ok?
    ensures FollowsChain(
      h.log + StepRound(h.db, confirmations, start + |h.log|, batchSize, round).value.1, chain, node, start)
  {
    hide StepRound, RoundFaithful, Knows;
    var height := start + |h.log|;
    var added := StepRound(h.db, confirmations, height, batchSize, round).value.1;
    forall i | 0 <= i < |added|
      ensures added[i].height == height + i && added[i].block == chain(height + i) && Knows(added[i].node, node)
    {
      AddedFollows(h.db, confirmations, height, batchSize, round, chain, node, i);
    }
    FollowsConcat(h.log, added, chain, node, start);
  }

  lemma {:induction false} RoundsFollow(
    h: History, confirmations: nat, height: nat, batchSize: nat, rounds: seq<Round>, chain: nat -> Block,
    node: Node, start: nat)
    requires FollowsChain(h.log, chain, node, start) && height == start + |h.log|
    requires RoundsFaithful(rounds, chain, node)
    ensures FollowsChain(RunRounds(h, confirmations, height, batchSize, rounds).history.log, chain, node, start)
    decreases |rounds|
  {
    hide *;
    FaithfulSplit(rounds, chain, node);
    FirstRound(h, confirmations, height, batchSize, rounds);
    if rounds != [] && !rounds[0].shutdown && StepRound(h.db, confirmations, height, batchSize, rounds[0]).Ok? {
      RoundFollows(h, confirmations, batchSize, rounds[0], chain, node, start);
      var (db, added) := StepRound(h.db, confirmations, height, batchSize, rounds[0]).value;
      RoundsFollow(
        History(db, h.log + added), confirmations, height + |added|, batchSize, rounds[1..], chain, node, start);
    }
  }

  lemma FaithfulSplit(rounds: seq<Round>, chain: nat -> Block, node: Node)
    requires RoundsFaithful(rounds, chain, node)
    ensures rounds != [] ==> RoundFaithful(rounds[0], chain, node) && RoundsFaithful(rounds[1..], chain, node)
  {
  }

  /** A process resumes right behind the blocks already indexed: none is skipped, none is read twice. */
  lemma RestartPoint(h: History, chain: nat -> Block, node: Node, start: nat)
    requires h.db.last == LastOf(h.log) && FollowsChain(h.log, chain, node, start)
    ensures StartBlock(h.db, start) == start + |h.log|
  {
    if h.log != [] {
      assert h.log[|h.log| - 1].height == start + (|h.log| - 1);
    }
  }

  lemma {:induction false} SessionsFollow(sessions: seq<Session>, chain: nat -> Block, node: Node, start: nat)
    requires Faithful(sessions, chain, node, start)
    ensures FollowsChain(RunSessions(sessions).log, chain, node, start)
    decreases |sessions|
  {
    if sessions != [] {
      var n := |sessions| - 1;
      assert Faithful(sessions[..n], chain, node, start);
      SessionsFollow(sessions[..n], chain, node, start);
      SessionsLinked(sessions[..n]);
      var h, s := RunSessions(sessions[..n]), sessions[n];
      RestartPoint(h, chain, node, start);
      RoundsFollow(
        h, s.confirmations, StartBlock(h.db, s.start), if s.capacity > 1 then s.capacity else 1, s.rounds, chain,
        node, start);
    }
  }

  lemma {:induction false} FollowsReplays(log: seq<Indexed>, chain: nat -> Block, node: Node, start: nat)
    requires FollowsChain(log, chain, node, start) && IndexAll(EMPTY_DB, log).Ok?
    ensures IndexAll(EMPTY_DB, ChainLog(chain, node, start, |log|)) == IndexAll(EMPTY_DB, log)
    decreases |log|
  {
    hide *;
    ChainLogPush(chain, node, start, 0);
    if log == [] {
      assert ChainLog(chain, node, start, 0) == log;
    } else {
      var n := |log| - 1;
      FollowsPrefix(log, chain, node, start);
      LastIndexed(log);
      FollowsReplays(log[..n], chain, node, start);
      BlockAgrees(IndexAll(EMPTY_DB, log[..n]).value, log[n], node);
      ChainLogPush(chain, node, start, n);
      LastIndexed(ChainLog(chain, node, start, n + 1));
    }
  }

  lemma LastIndexed(log: seq<Indexed>)
    requires log != []
    ensures var before := IndexAll(EMPTY_DB, log[..|log| - 1]);
            IndexAll(EMPTY_DB, log) == if before.Ok? then IndexBlock(before.value, log[|log| - 1]) else before
  {
  }

  lemma FollowsPrefix(log: seq<Indexed>, chain: nat -> Block, node: Node, start: nat)
    requires FollowsChain(log, chain, node, start) && log != []
    ensures var n := |log| - 1;
            && FollowsChain(log[..n], chain, node, start) && Knows(log[n].node, node)
            && log[n].(node := node) == Indexed(start + n, chain(start + n), node)
  {
  }

  lemma BlockAgrees(db: Db, e: Indexed, node: Node)
    requires Knows(e.node, node) && IndexBlock(db, e).Ok?
    ensures IndexBlock(db, e.(node := node)) == IndexBlock(db, e)
  {
    RunAgrees(db.tables, e.node, node, Placed(e.block, e.height));
  }

  lemma ChainLogPush(chain: nat -> Block, node: Node, start: nat, n: nat)
    ensures ChainLog(chain, node, start, n + 1)[..n] == ChainLog(chain, node, start, n)
    ensures |ChainLog(chain, node, start, n)| == n && |ChainLog(chain, node, start, n + 1)| == n + 1
    ensures ChainLog(chain, node, start, n + 1)[n] == Indexed(start + n, chain(start + n), node)
  {
  }

  lemma FollowsLast(log: seq<Indexed>, chain: nat -> Block, node: Node, start: nat)
    requires FollowsChain(log, chain, node, start)
    ensures LastOf(log)
         == if |log| == 0 then None else Some(BlockRef(start + |log| - 1, chain(start + |log| - 1).hash))
  {
  }

  lemma ReplayIs(h: History)
    requires Replays(h)
    ensures IndexAll(EMPTY_DB, h.log) == Ok(h.db)
  {
  }

  /**
    Batching, failures and restarts do not matter: the committed state is the chain folded one block
    at a time, from the configured start to the saved last height, with a node that never fails.
    */
  lemma CommittedIsFold(sessions: seq<Session>, chain: nat -> Block, node: Node, start: nat) returns (n: nat)
    requires Faithful(sessions, chain, node, start)
    ensures IndexAll(EMPTY_DB, ChainLog(chain, node, start, n)) == Ok(RunSessions(sessions).db)
    ensures RunSessions(sessions).db.last
         == if n == 0 then None else Some(BlockRef(start + n - 1, chain(start + n - 1).hash))
  {
    hide *;
    var h := RunSessions(sessions);
    n := |h.log|;
    SessionsFollow(sessions, chain, node, start);
    SessionsReplay(sessions);
    SessionsLinked(sessions);
    ReplayIs(h);
    FollowsReplays(h.log, chain, node, start);
    FollowsLast(h.log, chain, node, start);
  }

  /** Two histories that end at the same block are the same database. */
  lemma SameHeightSameState(
    a: seq<Session>, b: seq<Session>, chain: nat -> Block, node: Node, start: nat)
    requires Faithful(a, chain, node, start) && Faithful(b, chain, node, start)
    requires RunSessions(a).db.last == RunSessions(b).db.last
    ensures RunSessions(a).db == RunSessions(b).db
  {
    var n := CommittedIsFold(a, chain, node, start);
    var m := CommittedIsFold(b, chain, node, start);
  }

  // ---------------------------------------------------------------------------
  // Progress along a linked chain
  // ---------------------------------------------------------------------------

  /** Every block names the one before it. */
  ghost predicate LinkedChain(chain: nat -> Block, start: nat) {
    forall h: nat | h >= start :: chain(h + 1).prevHash == chain(h).hash
  }

  /** No transaction of the chain ends in an error. */
  ghost predicate NeverFails(chain: nat -> Block, node: Node, start: nat) {
    forall n: nat :: RunTxs(EMPTY_TABLES, node, ChainTxs(chain, start, n)).Ok?
  }

  lemma NextOfChain(chain: nat -> Block, node: Node, start: nat, n: nat)
    requires LinkedChain(chain, start) && NeverFails(chain, node, start)
    ensures n > 0 ==> chain(start + n).prevHash == chain(start + (n - 1)).hash
    ensures RunTxs(EMPTY_TABLES, node, ChainTxs(chain, start, n)).Ok?
    ensures RunTxs(RunTxs(EMPTY_TABLES, node, ChainTxs(chain, start, n)).value, node,
                   Placed(chain(start + n), start + n)).Ok?
  {
    hide RunTxs, Placed;
    if n > 0 {
      assert chain(start + (n - 1) + 1).prevHash == chain(start + (n - 1)).hash;
    }
    assert RunTxs(EMPTY_TABLES, node, ChainTxs(chain, start, n)).Ok?;
    assert RunTxs(EMPTY_TABLES, node, ChainTxs(chain, start, n + 1)).Ok?;
    RunConcat(EMPTY_TABLES, node, ChainTxs(chain, start, n), Placed(chain(start + n), start + n));
  }

  /** A linked chain without failing transactions can be indexed to any length. */
  lemma {:induction false} ChainIndexes(chain: nat -> Block, node: Node, start: nat, n: nat)
    requires LinkedChain(chain, start) && NeverFails(chain, node, start)
    ensures var r := IndexAll(EMPTY_DB, ChainLog(chain, node, start, n));
            && r.Ok?
            && r.value.last
               == (if n == 0 then None else Some(BlockRef(start + (n - 1), chain(start + (n - 1)).hash)))
    decreases n
  {
    hide *;
    if n == 0 {
      NothingIndexed(chain, node, start);
    } else {
      ChainIndexes(chain, node, start, n - 1);
      FoldIsRun(chain, node, start, n - 1);
      NextOfChain(chain, node, start, n - 1);
      ChainLogPush(chain, node, start, n - 1);
      LastIndexed(ChainLog(chain, node, start, n));
      var before := IndexAll(EMPTY_DB, ChainLog(chain, node, start, n - 1)).value;
      IndexBlockIff(before, Indexed(start + (n - 1), chain(start + (n - 1)), node));
    }
  }

  lemma NothingIndexed(chain: nat -> Block, node: Node, start: nat)
    ensures IndexAll(EMPTY_DB, ChainLog(chain, node, start, 0)) == Ok(EMPTY_DB) && EMPTY_DB.last == None
  {
  }

  /** The round's polls show the chain and its parses are answered by the full node. */
  ghost predicate ShowsChain(round: Round, chain: nat -> Block, node: Node) {
    && (forall i: nat :: round.node(i) == node)
    && (forall k: nat, i: nat, h: nat | k < |round.passes| && h in round.passes[k].polls(i).blocks ::
          round.passes[k].polls(i).blocks[h] == chain(h))
  }

  ghost predicate AllShowChain(rounds: seq<Round>, chain: nat -> Block, node: Node) {
    forall r | 0 <= r < |rounds| :: ShowsChain(rounds[r], chain, node)
  }

  lemma AllShowHead(rounds: seq<Round>, chain: nat -> Block, node: Node)
    requires rounds != [] && AllShowChain(rounds, chain, node)
    ensures ShowsChain(rounds[0], chain, node) && AllShowChain(rounds[1..], chain, node)
  {
  }

  lemma ChainLogAt(chain: nat -> Block, node: Node, start: nat, n: nat, i: nat)
    requires i < n
    ensures |ChainLog(chain, node, start, n)| == n
    ensures ChainLog(chain, node, start, n)[i] == Indexed(start + i, chain(start + i), node)
  {
  }

  lemma ChainLogLength(chain: nat -> Block, node: Node, start: nat, n: nat)
    ensures |ChainLog(chain, node, start, n)| == n
  {
  }

  lemma ShownBlock(
    round: Round, chain: nat -> Block, node: Node, height: nat, confirmations: nat, batchSize: nat, i: nat)
    requires ShowsChain(round, chain, node) && Healthy(round, confirmations, height, batchSize) && i < batchSize
    ensures round.passes != [] && height + i in round.passes[0].polls(i).blocks
    ensures round.passes[0].polls(i).blocks[height + i] == chain(height + i) && round.node(i) == node
  {
  }

  lemma OfferedAt(
    round: Round, chain: nat -> Block, node: Node, height: nat, confirmations: nat, batchSize: nat, i: nat)
    requires ShowsChain(round, chain, node) && Healthy(round, confirmations, height, batchSize) && i < batchSize
    ensures round.passes != [] && forall j: nat | j < batchSize :: height + j in round.passes[0].polls(j).blocks
    ensures |Offered(round, height, batchSize)| == batchSize
    ensures Offered(round, height, batchSize)[i] == Indexed(height + i, chain(height + i), node)
  {
    hide *;
    OfferedLength(round, confirmations, height, batchSize);
    ShownBlock(round, chain, node, height, confirmations, batchSize, i);
    OfferedIs(round, height, batchSize, i);
  }

  lemma SameEntries(a: seq<Indexed>, b: seq<Indexed>, whole: seq<Indexed>)
    requires |whole| == |a| + |b|
    requires forall j | 0 <= j < |a| :: a[j] == whole[j]
    requires forall j | 0 <= j < |b| :: b[j] == whole[|a|..][j]
    ensures a + b == whole
  {
    assert a == whole[..|a|];
    assert b == whole[|a|..];
  }

  lemma OfferedIsChain(
    round: Round, chain: nat -> Block, node: Node, start: nat, n: nat, confirmations: nat, batchSize: nat)
    requires ShowsChain(round, chain, node) && Healthy(round, confirmations, start + n, batchSize)
    ensures round.passes != [] && forall i: nat | i < batchSize :: start + n + i in round.passes[0].polls(i).blocks
    ensures ChainLog(chain, node, start, n) + Offered(round, start + n, batchSize)
         == ChainLog(chain, node, start, n + batchSize)
  {
    hide *;
    OfferedLength(round, confirmations, start + n, batchSize);
    ChainLogLength(chain, node, start, n);
    ChainLogLength(chain, node, start, n + batchSize);
    var before := ChainLog(chain, node, start, n);
    var offered := Offered(round, start + n, batchSize);
    var whole := ChainLog(chain, node, start, n + batchSize);
    forall j | 0 <= j < n ensures before[j] == whole[j] {
      ChainLogAt(chain, node, start, n, j);
      ChainLogAt(chain, node, start, n + batchSize, j);
    }
    forall j | 0 <= j < batchSize ensures offered[j] == whole[n..][j] {
      OfferedAt(round, chain, node, start + n, confirmations, batchSize, j);
      ChainLogAt(chain, node, start, n + batchSize, n + j);
      assert start + n + j == start + (n + j);
    }
    SameEntries(before, offered, whole);
  }

  lemma LinkedRound(
    db: Db, chain: nat -> Block, node: Node, start: nat, n: nat, confirmations: nat, batchSize: nat, round: Round)
    requires LinkedChain(chain, start) && NeverFails(chain, node, start) && batchSize > 0
    requires IndexAll(EMPTY_DB, ChainLog(chain, node, start, n)) == Ok(db)
    requires ShowsChain(round, chain, node) && Healthy(round, confirmations, start + n, batchSize)
    ensures var r := StepRound(db, confirmations, start + n, batchSize, round);
            && r.Ok? && ChainLog(chain, node, start, n) + r.value.1 == ChainLog(chain, node, start, n + batchSize)
            && |r.value.1| == batchSize
            && IndexAll(EMPTY_DB, ChainLog(chain, node, start, n + batchSize)) == Ok(r.value.0)
  {
    hide *;
    OfferedIsChain(round, chain, node, start, n, confirmations, batchSize);
    OfferedLength(round, confirmations, start + n, batchSize);
    HealthyRoundCommits(db, confirmations, start + n, batchSize, round);
    IndexAllConcat(EMPTY_DB, ChainLog(chain, node, start, n), Offered(round, start + n, batchSize));
    ChainIndexes(chain, node, start, n + batchSize);
  }

  /** The length of the log after `left` more rounds. */
  function Grown(n: nat, batchSize: nat, left: nat): nat
    decreases left
  {
    if left == 0 then n else Grown(n + batchSize, batchSize, left - 1)
  }

  lemma {:induction false} GrownIs(n: nat, batchSize: nat, left: nat)
    ensures Grown(n, batchSize, left) == n + left * batchSize
    decreases left
  {
    if left > 0 {
      GrownIs(n + batchSize, batchSize, left - 1);
      assert left * batchSize == batchSize + (left - 1) * batchSize;
    }
  }

  lemma GrownStep(n: nat, batchSize: nat, left: nat)
    ensures Grown(n, batchSize, 0) == n
    ensures Grown(n, batchSize, left + 1) == Grown(n + batchSize, batchSize, left)
  {
  }

  lemma {:induction false} LinkedRunEnds(
    h: History, chain: nat -> Block, node: Node, start: nat, n: nat, confirmations: nat, batchSize: nat,
    rounds: seq<Round>)
    requires LinkedChain(chain, start) && NeverFails(chain, node, start) && batchSize > 0
    requires h.log == ChainLog(chain, node, start, n) && Replays(h)
    requires HealthyRun(rounds, confirmations, start + n, batchSize) && AllShowChain(rounds, chain, node)
    ensures var end := RunRounds(h, confirmations, start + n, batchSize, rounds);
            && end.outcome == Ok(())
            && end.history.log == ChainLog(chain, node, start, Grown(n, batchSize, |rounds|))
    decreases |rounds|
  {
    hide *;
    FirstRound(h, confirmations, start + n, batchSize, rounds);
    if rounds == [] {
      GrownStep(n, batchSize, 0);
    } else {
      var others := rounds[1..];
      ReplayIs(h);
      HealthyHead(rounds, confirmations, start + n, batchSize);
      AllShowHead(rounds, chain, node);
      LinkedRound(h.db, chain, node, start, n, confirmations, batchSize, rounds[0]);
      RoundReplays(h, confirmations, start + n, batchSize, rounds[0]);
      var (db, added) := StepRound(h.db, confirmations, start + n, batchSize, rounds[0]).value;
      assert start + n + batchSize == start + (n + batchSize);
      LinkedRunEnds(History(db, h.log + added), chain, node, start, n + batchSize, confirmations, batchSize, others);
      GrownStep(n, batchSize, |others|);
    }
  }

  /**
    Progress: along a linked chain in which no transaction fails, healthy rounds all succeed and the index
    grows by exactly one batch each round.
    */
  lemma LinkedRunGrows(
    h: History, chain: nat -> Block, node: Node, start: nat, n: nat, confirmations: nat, batchSize: nat,
    rounds: seq<Round>)
    requires LinkedChain(chain, start) && NeverFails(chain, node, start) && batchSize > 0
    requires h.log == ChainLog(chain, node, start, n) && Replays(h)
    requires HealthyRun(rounds, confirmations, start + n, batchSize) && AllShowChain(rounds, chain, node)
    ensures var end := RunRounds(h, confirmations, start + n, batchSize, rounds);
            && end.outcome == Ok(())
            && end.history.log == ChainLog(chain, node, start, |end.history.log|)
            && |end.history.log| == |h.log| + |rounds| * batchSize
  {
    hide *;
    LinkedRunEnds(h, chain, node, start, n, confirmations, batchSize, rounds);
    GrownIs(n, batchSize, |rounds|);
    ChainLogLength(chain, node, start, n);
    ChainLogLength(chain, node, start, Grown(n, batchSize, |rounds|));
  }

  // ---------------------------------------------------------------------------
  // A block that cannot be indexed
  // ---------------------------------------------------------------------------

  lemma {:induction false} ChainLogPrefix(chain: nat -> Block, node: Node, start: nat, m: nat, n: nat)
    requires m <= n
    ensures |ChainLog(chain, node, start, n)| == n
    ensures ChainLog(chain, node, start, n)[..m] == ChainLog(chain, node, start, m)
  {
  }

  /**
    If the first `m` blocks cannot be indexed, no sessions ever get past them: whatever the batches,
    retries and restarts, the saved height stays below block `m`.
    */
  lemma HaltedForGood(sessions: seq<Session>, chain: nat -> Block, node: Node, start: nat, m: nat)
    requires Faithful(sessions, chain, node, start)
    requires IndexAll(EMPTY_DB, ChainLog(chain, node, start, m)).Err?
    ensures var last := RunSessions(sessions).db.last; last.Some? ==> last.value.height + 1 < start + m
  {
    hide *;
    var n := CommittedIsFold(sessions, chain, node, start);
    if n >= m {
      ChainLogPrefix(chain, node, start, m, n);
      IndexAllStopped(EMPTY_DB, ChainLog(chain, node, start, n), m);
      assert false;
    }
  }

  /** Transaction `i` of the block after the first `m` fails, once the blocks and transactions before it are done. */
  ghost predicate FailsAt(chain: nat -> Block, node: Node, start: nat, m: nat, i: nat) {
    var before := IndexAll(EMPTY_DB, ChainLog(chain, node, start, m));
    var block := chain(start + m);
    && before.Ok? && i < |block.txs|
    && var done := RunTxs(before.value.tables, node, Placed(block, start + m)[..i]);
       && done.Ok? && StepTx(done.value, node, block.txs[i], Position(start + m, i)).Err?
  }

  /** One transaction that ends in an error stops the index before its block, for good. */
  lemma FailingTransactionHalts(
    sessions: seq<Session>, chain: nat -> Block, node: Node, start: nat, m: nat, i: nat)
    requires Faithful(sessions, chain, node, start) && FailsAt(chain, node, start, m, i)
    ensures var last := RunSessions(sessions).db.last; last.Some? ==> last.value.height < start + m
  {
    FailingBlock(chain, node, start, m, i);
    HaltedForGood(sessions, chain, node, start, m + 1);
  }

  lemma FailingRun(t: Tables, node: Node, block: Block, height: nat, i: nat)
    requires i < |block.txs| && RunTxs(t, node, Placed(block, height)[..i]).Ok?
    requires StepTx(RunTxs(t, node, Placed(block, height)[..i]).value, node, block.txs[i], Position(height, i)).Err?
    ensures RunTxs(t, node, Placed(block, height)).Err?
  {
    hide StepTx;
    var txs := Placed(block, height);
    var next := txs[..i + 1];
    assert next[..|next| - 1] == txs[..i] && next[|next| - 1] == TxAt(block.txs[i], Position(height, i));
    BlockParser.RunStopped(t, node, txs, i + 1);
  }

  lemma FailingEntry(db: Db, e: Indexed)
    requires RunTxs(db.tables, e.node, Placed(e.block, e.height)).Err?
    ensures IndexBlock(db, e).Err?
  {
    hide RunTxs, Placed;
  }

  lemma FailsAtMeans(chain: nat -> Block, node: Node, start: nat, m: nat, i: nat)
    requires FailsAt(chain, node, start, m, i)
    ensures var before := IndexAll(EMPTY_DB, ChainLog(chain, node, start, m));
            before.Ok? && RunTxs(before.value.tables, node, Placed(chain(start + m), start + m)).Err?
  {
    hide StepTx, RunTxs, IndexAll, Placed, ChainLog;
    var before := IndexAll(EMPTY_DB, ChainLog(chain, node, start, m));
    FailingRun(before.value.tables, node, chain(start + m), start + m, i);
  }

  lemma FailingBlock(chain: nat -> Block, node: Node, start: nat, m: nat, i: nat)
    requires FailsAt(chain, node, start, m, i)
    ensures IndexAll(EMPTY_DB, ChainLog(chain, node, start, m + 1)).Err?
  {
    hide *;
    FailsAtMeans(chain, node, start, m, i);
    var db := IndexAll(EMPTY_DB, ChainLog(chain, node, start, m)).value;
    FailingEntry(db, Indexed(start + m, chain(start + m), node));
    ChainLogPush(chain, node, start, m);
    LastIndexed(ChainLog(chain, node, start, m + 1));
  }

  // ---------------------------------------------------------------------------
  // Every database the daemon can leave behind
  // ---------------------------------------------------------------------------

  /** The transactions of `n` blocks of the chain, from `start` on. */
  function ChainTxs(chain: nat -> Block, start: nat, n: nat): seq<TxAt> {
    if n == 0 then [] else ChainTxs(chain, start, n - 1) + Placed(chain(start + n - 1), start + n - 1)
  }

  lemma {:induction false} RunConcat(t: Tables, node: Node, a: seq<TxAt>, b: seq<TxAt>)
    requires RunTxs(t, node, a).Ok?
    ensures RunTxs(t, node, a + b) == RunTxs(RunTxs(t, node, a).value, node, b)
    decreases |b|
  {
    hide StepTx;
    if b == [] {
      assert a + b == a;
    } else {
      var n := |b| - 1;
      RunConcat(t, node, a, b[..n]);
      assert (a + b)[..|a + b| - 1] == a + b[..n];
    }
  }

  lemma {:induction false} FoldIsRun(chain: nat -> Block, node: Node, start: nat, n: nat)
    requires IndexAll(EMPTY_DB, ChainLog(chain, node, start, n)).Ok?
    ensures RunTxs(EMPTY_TABLES, node, ChainTxs(chain, start, n))
         == Ok(IndexAll(EMPTY_DB, ChainLog(chain, node, start, n)).value.tables)
    decreases n
  {
    hide RunTxs, ChainLog, Placed;
    if n == 0 {
      NothingRun(chain, node, start);
    } else {
      ChainLogPush(chain, node, start, n - 1);
      FoldIsRun(chain, node, start, n - 1);
      RunConcat(
        EMPTY_TABLES, node, ChainTxs(chain, start, n - 1), Placed(chain(start + n - 1), start + n - 1));
    }
  }

  lemma NothingRun(chain: nat -> Block, node: Node, start: nat)
    ensures ChainLog(chain, node, start, 0) == []
    ensures RunTxs(EMPTY_TABLES, node, []) == Ok(EMPTY_TABLES)
  {
  }

  lemma NothingHeld(x: Token)
    ensures Inv(EMPTY_TABLES) && Single(EMPTY_TABLES) && !Held(EMPTY_TABLES, x)
  {
    NothingStored(EMPTY_TABLES);
  }

  predicate DistinctTxids(txs: seq<TxAt>) {
    forall i, j | 0 <= i < j < |txs| :: txs[i].tx.txid != txs[j].tx.txid
  }

  /**
    After any sessions against a chain of distinct transactions the tables satisfy the invariant, hold
    only tokens registered on the way (all of them, unless a mix was rejected), and hold each once
    when registrations only name new slots.
    */
  lemma ReachableDatabase(sessions: seq<Session>, chain: nat -> Block, node: Node, start: nat, x: Token)
    returns (n: nat)
    requires Faithful(sessions, chain, node, start)
    requires forall n: nat :: DistinctTxids(ChainTxs(chain, start, n))
    ensures RunSessions(sessions).db.last
         == if n == 0 then None else Some(BlockRef(start + n - 1, chain(start + n - 1).hash))
    ensures var txs, t := ChainTxs(chain, start, n), RunSessions(sessions).db.tables;
            && RunTxs(EMPTY_TABLES, node, txs) == Ok(t)
            && Inv(t)
            && (Held(t, x) ==> RegisteredIn(EMPTY_TABLES, node, txs, x))
            && (NoMixRejected(EMPTY_TABLES, node, txs) ==> (Held(t, x) <==> RegisteredIn(EMPTY_TABLES, node, txs, x)))
            && (WellBehaved(EMPTY_TABLES, node, txs) ==> Single(t))
  {
    n := CommittedIsFold(sessions, chain, node, start);
    var txs := ChainTxs(chain, start, n);
    FoldIsRun(chain, node, start, n);
    NothingHeld(x);
    assert FreshRun(EMPTY_TABLES, txs);
    hide *;
    RunKeepsInv(EMPTY_TABLES, node, txs, 0);
    RunConserves(EMPTY_TABLES, node, txs, x);
    if WellBehaved(EMPTY_TABLES, node, txs) {
      RunKeepsSingle(EMPTY_TABLES, node, txs);
    }
  }
}
