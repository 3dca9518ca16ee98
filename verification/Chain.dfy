/**
  Safety and confluence of the indexer over every list of sessions: any node answers, batch sizes,
  confirmations, shutdowns, failures and restarts.
  */
module Chain {
  import opened Prelude
  import opened Storage
  import opened Parser
  import opened Scanner
  import opened Indexer

  // ---------------------------------------------------------------------------
  // The database is always the log, indexed one block at a time
  // ---------------------------------------------------------------------------

  /** The database is what indexing the committed blocks one by one gives. */
  ghost predicate Replays(h: History) {
    IndexAll(EMPTY_DB, h.log) == Ok(h.db)
  }

  lemma {:induction false} IndexAllConcat(db: Db, a: seq<Indexed>, b: seq<Indexed>)
    requires IndexAll(db, a).Ok?
    ensures IndexAll(db, a + b) == IndexAll(IndexAll(db, a).value, b)
    decreases |b|
  {
    hide IndexBlock;
    if b == [] {
      assert a + b == a;
    } else {
      var n := |b| - 1;
      IndexAllConcat(db, a, b[..n]);
      assert (a + b)[..|a + b| - 1] == a + b[..n];
    }
  }

  lemma RoundReplays(h: History, confirmations: nat, height: nat, batchSize: nat, round: Round)
    requires Replays(h) && StepRound(h.db, confirmations, height, batchSize, round).Ok?
    ensures var (db, added) := StepRound(h.db, confirmations, height, batchSize, round).value;
            Replays(History(db, h.log + added))
  {
    var (db, added) := StepRound(h.db, confirmations, height, batchSize, round).value;
    assert h.log + [] == h.log;
    IndexAllConcat(EMPTY_DB, h.log, added);
  }

  /** The first round either ends the process or hands over to the others. */
  lemma FirstRound(h: History, confirmations: nat, height: nat, batchSize: nat, rounds: seq<Round>)
    ensures RunRounds(h, confirmations, height, batchSize, rounds)
         == if rounds == [] || rounds[0].shutdown then Ending(h, Ok(()))
            else match StepRound(h.db, confirmations, height, batchSize, rounds[0])
              case Err(e) => Ending(h, Err(e))
              case Ok((db, added)) =>
                RunRounds(History(db, h.log + added), confirmations, height + |added|, batchSize, rounds[1..])
  {
    hide StepRound;
  }

  lemma {:induction false} RoundsReplay(
    h: History, confirmations: nat, height: nat, batchSize: nat, rounds: seq<Round>)
    requires Replays(h)
    ensures Replays(RunRounds(h, confirmations, height, batchSize, rounds).history)
    decreases |rounds|
  {
    hide *;
    FirstRound(h, confirmations, height, batchSize, rounds);
    if rounds != [] && !rounds[0].shutdown && StepRound(h.db, confirmations, height, batchSize, rounds[0]).Ok? {
      RoundReplays(h, confirmations, height, batchSize, rounds[0]);
      var (db, added) := StepRound(h.db, confirmations, height, batchSize, rounds[0]).value;
      RoundsReplay(History(db, h.log + added), confirmations, height + |added|, batchSize, rounds[1..]);
    }
  }

  /** After any sessions the database equals its log replayed block by block: batches leave no trace. */
  lemma {:induction false} SessionsReplay(sessions: seq<Session>)
    ensures Replays(RunSessions(sessions))
    decreases |sessions|
  {
    if sessions != [] {
      var n := |sessions| - 1;
      SessionsReplay(sessions[..n]);
      var h, s := RunSessions(sessions[..n]), sessions[n];
      RoundsReplay(
        h, s.confirmations, StartBlock(h.db, s.start), if s.capacity > 1 then s.capacity else 1, s.rounds);
    }
  }

  // ---------------------------------------------------------------------------
  // The indexed chain is contiguous and hash-linked
  // ---------------------------------------------------------------------------

  ghost predicate Linked(log: seq<Indexed>) {
    forall i, j | 0 <= i && j == i + 1 && j < |log| ::
      log[j].height == log[i].height + 1 && log[j].block.prevHash == log[i].block.hash
  }

  function LastOf(log: seq<Indexed>): Option<BlockRef> {
    if log == [] then None else Some(BlockRef(log[|log| - 1].height, log[|log| - 1].block.hash))
  }

  lemma LastLinks(db: Db, e: Indexed)
    requires IndexBlock(db, e).Ok?
    ensures IndexBlock(db, e).value.last == Some(BlockRef(e.height, e.block.hash))
    ensures db.last.Some? ==> e.height == db.last.value.height + 1 && e.block.prevHash == db.last.value.hash
  {
  }

  lemma LinkedPush(log: seq<Indexed>)
    requires log != [] && Linked(log[..|log| - 1])
    requires var last := LastOf(log[..|log| - 1]);
             last.Some? ==>
               log[|log| - 1].height == last.value.height + 1 && log[|log| - 1].block.prevHash == last.value.hash
    ensures Linked(log)
  {
    var n := |log| - 1;
    forall i, j | 0 <= i && j == i + 1 && j < |log|
      ensures log[j].height == log[i].height + 1 && log[j].block.prevHash == log[i].block.hash
    {
      assert log[..n][i] == log[i];
      if j < n {
        assert log[..n][j] == log[j];
      }
    }
  }

  lemma {:induction false} IndexedIsLinked(log: seq<Indexed>)
    requires IndexAll(EMPTY_DB, log).Ok?
    ensures Linked(log) && IndexAll(EMPTY_DB, log).value.last == LastOf(log)
    decreases |log|
  {
    if log != [] {
      var n := |log| - 1;
      IndexedIsLinked(log[..n]);
      LastLinks(IndexAll(EMPTY_DB, log[..n]).value, log[n]);
      hide IndexBlock, Linked;
      LinkedPush(log);
    }
  }

  /**
    Under any node answers committed heights rise by one, each block names the one before, and the saved
    last block is the end of the log.
    */
  lemma SessionsLinked(sessions: seq<Session>)
    ensures Linked(RunSessions(sessions).log)
    ensures RunSessions(sessions).db.last == LastOf(RunSessions(sessions).log)
  {
    SessionsReplay(sessions);
    IndexedIsLinked(RunSessions(sessions).log);
  }

  // ---------------------------------------------------------------------------
  // The height-mismatch branch is never taken
  // ---------------------------------------------------------------------------

  /** The scanner stands at the block after the last one indexed. */
  predicate Aligned(db: Db, height: nat) {
    db.last.Some? ==> height == db.last.value.height + 1
  }

  lemma {:induction false} BatchAligned(db: Db, round: Round, height: nat, blocks: seq<Block>, n: nat)
    requires Aligned(db, height) && n <= |blocks|
    ensures var r := IndexAll(db, Entries(round, height, blocks)[..n]);
            match r
            case Ok(after) => Aligned(after, height + n)
            case Err(e) => !e.HeightGap?
    decreases n
  {
    var log := Entries(round, height, blocks);
    if n > 0 {
      BatchAligned(db, round, height, blocks, n - 1);
      assert log[..n][..n - 1] == log[..n - 1];
    }
  }

  lemma RoundAligned(db: Db, confirmations: nat, height: nat, batchSize: nat, round: Round)
    requires Aligned(db, height)
    ensures match StepRound(db, confirmations, height, batchSize, round)
            case Ok((after, added)) => Aligned(after, height + |added|)
            case Err(e) => !e.HeightGap?
  {
    var next := NextBlocks(round.passes, confirmations, height, batchSize);
    if next.Ok? {
      var log := Entries(round, height, next.value);
      BatchAligned(db, round, height, next.value, |log|);
      assert log[..|log|] == log;
      if round.fault.Some? && round.fault.value < |log| {
        BatchAligned(db, round, height, next.value, round.fault.value);
      }
    }
  }

  lemma {:induction false} RoundsAligned(
    h: History, confirmations: nat, height: nat, batchSize: nat, rounds: seq<Round>)
    requires Aligned(h.db, height)
    ensures var end := RunRounds(h, confirmations, height, batchSize, rounds);
            end.outcome.Err? ==> !end.outcome.error.HeightGap?
    decreases |rounds|
  {
    hide *;
    FirstRound(h, confirmations, height, batchSize, rounds);
    if rounds != [] && !rounds[0].shutdown {
      RoundAligned(h.db, confirmations, height, batchSize, rounds[0]);
      if StepRound(h.db, confirmations, height, batchSize, rounds[0]).Ok? {
        var (db, added) := StepRound(h.db, confirmations, height, batchSize, rounds[0]).value;
        RoundsAligned(History(db, h.log + added), confirmations, height + |added|, batchSize, rounds[1..]);
      }
    }
  }

  /** No session, on any database, ends with the height mismatch error; only a wrong parent hash shows a reorg. */
  lemma HeightGapUnreachable(h: History, s: Session)
    ensures RunSession(h, s).outcome.Err? ==> !RunSession(h, s).outcome.error.HeightGap?
  {
    RoundsAligned(
      h, s.confirmations, StartBlock(h.db, s.start), if s.capacity > 1 then s.capacity else 1, s.rounds);
  }

  // ---------------------------------------------------------------------------
  // Nothing is indexed before it is confirmed
  // ---------------------------------------------------------------------------

  /** Some poll of the round saw this block at its height with enough blocks on top. */
  ghost predicate SeenIn(round: Round, confirmations: nat, k: nat, i: nat, height: nat, block: Block) {
    && k < |round.passes|
    && round.passes[k].polls(i).tip.Some? && height + confirmations <= round.passes[k].polls(i).tip.value
    && height in round.passes[k].polls(i).blocks && round.passes[k].polls(i).blocks[height] == block
  }

  ghost predicate Seen(rounds: seq<Round>, confirmations: nat, height: nat, block: Block) {
    exists r, k: nat, i: nat | 0 <= r < |rounds| :: SeenIn(rounds[r], confirmations, k, i, height, block)
  }

  ghost predicate SeenBySome(sessions: seq<Session>, height: nat, block: Block) {
    exists s | 0 <= s < |sessions| :: Seen(sessions[s].rounds, sessions[s].confirmations, height, block)
  }

  lemma RoundSeen(db: Db, confirmations: nat, height: nat, batchSize: nat, round: Round, e: Indexed)
    requires StepRound(db, confirmations, height, batchSize, round).Ok?
    requires e in StepRound(db, confirmations, height, batchSize, round).value.1
    ensures Seen([round], confirmations, e.height, e.block)
  {
    hide IndexBatch;
    var added := StepRound(db, confirmations, height, batchSize, round).value.1;
    var i :| 0 <= i < |added| && added[i] == e;
    var k := BatchConfirmed(round.passes, confirmations, height, batchSize, i);
    assert SeenIn([round][0], confirmations, k, i, e.height, e.block);
  }

  lemma SeenLater(rounds: seq<Round>, confirmations: nat, height: nat, block: Block)
    requires rounds != []
    requires Seen([rounds[0]], confirmations, height, block) || Seen(rounds[1..], confirmations, height, block)
    ensures Seen(rounds, confirmations, height, block)
  {
    if Seen([rounds[0]], confirmations, height, block) {
      var r, k: nat, i: nat :| 0 <= r < 1 && SeenIn([rounds[0]][r], confirmations, k, i, height, block);
      assert SeenIn(rounds[0], confirmations, k, i, height, block);
    } else {
      var r, k: nat, i: nat :| 0 <= r < |rounds[1..]| && SeenIn(rounds[1..][r], confirmations, k, i, height, block);
      assert SeenIn(rounds[r + 1], confirmations, k, i, height, block);
    }
  }

  lemma {:induction false} RoundsSeen(
    h: History, confirmations: nat, height: nat, batchSize: nat, rounds: seq<Round>, e: Indexed)
    requires e in RunRounds(h, confirmations, height, batchSize, rounds).history.log
    ensures e in h.log || Seen(rounds, confirmations, e.height, e.block)
    decreases |rounds|
  {
    hide *;
    FirstRound(h, confirmations, height, batchSize, rounds);
    if rounds != [] && !rounds[0].shutdown && StepRound(h.db, confirmations, height, batchSize, rounds[0]).Ok? {
      var (db, added) := StepRound(h.db, confirmations, height, batchSize, rounds[0]).value;
      RoundsSeen(History(db, h.log + added), confirmations, height + |added|, batchSize, rounds[1..], e);
      if e in added {
        RoundSeen(h.db, confirmations, height, batchSize, rounds[0], e);
      }
      if e !in h.log {
        SeenLater(rounds, confirmations, e.height, e.block);
      }
    }
  }

  /** Every indexed block was read from the node while the tip was `confirmations` above it. */
  lemma {:induction false} SessionsConfirmed(sessions: seq<Session>, e: Indexed)
    requires e in RunSessions(sessions).log
    ensures SeenBySome(sessions, e.height, e.block)
    decreases |sessions|
  {
    if sessions != [] {
      var n := |sessions| - 1;
      var h, s := RunSessions(sessions[..n]), sessions[n];
      RoundsSeen(
        h, s.confirmations, StartBlock(h.db, s.start), if s.capacity > 1 then s.capacity else 1, s.rounds, e);
      if e in h.log {
        SessionsConfirmed(sessions[..n], e);
        var k :| 0 <= k < n && Seen(sessions[..n][k].rounds, sessions[..n][k].confirmations, e.height, e.block);
        assert Seen(sessions[k].rounds, sessions[k].confirmations, e.height, e.block);
      } else {
        assert Seen(sessions[n].rounds, sessions[n].confirmations, e.height, e.block);
      }
    }
  }

  // ---------------------------------------------------------------------------
  // Exactly which blocks are indexed
  // ---------------------------------------------------------------------------

  /** The block continues what is indexed, or nothing is indexed yet. */
  predicate Continues(db: Db, height: nat, block: Block) {
    db.last.None? || (height == db.last.value.height + 1 && block.prevHash == db.last.value.hash)
  }

  /**
    A block is indexed exactly when it continues the index and all its transactions run. Otherwise the
    error says which failed first: the height, then the parent hash, then a transaction.
    */
  lemma IndexBlockIff(db: Db, e: Indexed)
    ensures var ran := RunTxs(db.tables, e.node, Placed(e.block, e.height));
            var r := IndexBlock(db, e);
            && (r.Ok? <==>
                  && ran.Ok?
                  && (db.last.Some? ==>
                        e.height == db.last.value.height + 1 && e.block.prevHash == db.last.value.hash))
            && (r.Ok? ==> r.value == Db(Some(BlockRef(e.height, e.block.hash)), ran.value))
            && (r.Err? && r.error.HeightGap? <==> db.last.Some? && e.height != db.last.value.height + 1)
            && (r.Err? && r.error.HashMismatch? <==>
                  && db.last.Some? && e.height == db.last.value.height + 1
                  && e.block.prevHash != db.last.value.hash)
            && (r.Err? && r.error.ParseFailed? <==> Continues(db, e.height, e.block) && ran.Err?)
  {
    hide RunTxs, Placed;
  }

  // ---------------------------------------------------------------------------
  // Exactly which rounds commit
  // ---------------------------------------------------------------------------

  /**
    A round that got blocks commits exactly when opening and committing the transaction work, no call
    fails while they are parsed, and all of them can be indexed; then it commits all of them.
    */
  lemma RoundCommitsIff(
    db: Db, confirmations: nat, height: nat, batchSize: nat, round: Round, blocks: seq<Block>)
    requires NextBlocks(round.passes, confirmations, height, batchSize) == Ok(blocks) && blocks != []
    ensures var r := StepRound(db, confirmations, height, batchSize, round);
            var all := IndexAll(db, Entries(round, height, blocks));
            && (r.Ok? <==>
                  && round.begins && round.commits && all.Ok?
                  && (round.fault.Some? ==> round.fault.value >= |blocks|))
            && (r.Ok? ==> r.value == (all.value, Entries(round, height, blocks)))
  {
    hide NextBlocks;
  }

  /** Shutdown ends the process: what later rounds would have done does not matter. */
  lemma {:induction false} ShutdownEnds(
    h: History, confirmations: nat, height: nat, batchSize: nat, rounds: seq<Round>, i: nat)
    requires i < |rounds| && rounds[i].shutdown
    ensures RunRounds(h, confirmations, height, batchSize, rounds)
         == RunRounds(h, confirmations, height, batchSize, rounds[..i])
    decreases i
  {
    hide *;
    FirstRound(h, confirmations, height, batchSize, rounds);
    FirstRound(h, confirmations, height, batchSize, rounds[..i]);
    if i > 0 && StepRound(h.db, confirmations, height, batchSize, rounds[0]).Ok? {
      var (db, added) := StepRound(h.db, confirmations, height, batchSize, rounds[0]).value;
      assert rounds[..i][1..] == rounds[1..][..i - 1];
      ShutdownEnds(History(db, h.log + added), confirmations, height + |added|, batchSize, rounds[1..], i - 1);
    }
  }

  // ---------------------------------------------------------------------------
  // Progress
  // ---------------------------------------------------------------------------

  /** Nothing fails in the round, and its first pass sees a whole batch confirmed. */
  ghost predicate Healthy(round: Round, confirmations: nat, height: nat, batchSize: nat) {
    && round.passes != [] && round.begins && round.commits && round.fault.None?
    && forall i: nat | i < batchSize ::
         && round.passes[0].polls(i).tip.Some?
         && height + i + confirmations <= round.passes[0].polls(i).tip.value
         && height + i in round.passes[0].polls(i).blocks
  }

  /** The blocks such a round sees, from `height` on. */
  function Offered(round: Round, height: nat, n: nat): seq<Indexed>
    requires round.passes != []
    requires forall i: nat | i < n :: height + i in round.passes[0].polls(i).blocks
  {
    seq(n, i requires 0 <= i < n => Indexed(height + i, round.passes[0].polls(i).blocks[height + i], round.node(i)))
  }

  lemma HealthyPoll(round: Round, confirmations: nat, height: nat, batchSize: nat, i: nat)
    requires Healthy(round, confirmations, height, batchSize) && i < batchSize
    ensures round.passes != []
    ensures Confirmed(round.passes[0].polls(i), confirmations, height + i)
    ensures height + i in round.passes[0].polls(i).blocks
  {
  }

  lemma HealthyFills(round: Round, confirmations: nat, height: nat, batchSize: nat)
    requires Healthy(round, confirmations, height, batchSize)
    ensures round.passes != []
    ensures Collect(round.passes[0].polls, confirmations, height, batchSize).Ok?
    ensures |Collect(round.passes[0].polls, confirmations, height, batchSize).value| == batchSize
  {
    assert round.passes != [];
    hide *;
    forall i: nat | i < batchSize
      ensures Confirmed(round.passes[0].polls(i), confirmations, height + i)
      ensures height + i in round.passes[0].polls(i).blocks
    {
      HealthyPoll(round, confirmations, height, batchSize, i);
    }
    CollectFills(round.passes[0].polls, confirmations, height, batchSize);
  }

  lemma FirstPass(passes: seq<Pass>, confirmations: nat, height: nat, batchSize: nat)
    requires batchSize > 0 && passes != [] && Collect(passes[0].polls, confirmations, height, batchSize).Ok?
    requires Collect(passes[0].polls, confirmations, height, batchSize).value != []
    ensures NextBlocks(passes, confirmations, height, batchSize)
         == Collect(passes[0].polls, confirmations, height, batchSize)
  {
  }

  lemma OfferedIs(round: Round, height: nat, n: nat, i: nat)
    requires round.passes != [] && i < n
    requires forall j: nat | j < n :: height + j in round.passes[0].polls(j).blocks
    ensures Offered(round, height, n)[i]
         == Indexed(height + i, round.passes[0].polls(i).blocks[height + i], round.node(i))
  {
  }

  lemma EntriesAt(round: Round, height: nat, blocks: seq<Block>, i: nat)
    requires i < |blocks|
    ensures |Entries(round, height, blocks)| == |blocks|
    ensures Entries(round, height, blocks)[i] == Indexed(height + i, blocks[i], round.node(i))
  {
  }

  lemma OfferedBatch(confirmations: nat, height: nat, batchSize: nat, round: Round) returns (blocks: seq<Block>)
    requires batchSize > 0 && Healthy(round, confirmations, height, batchSize)
    ensures round.passes != [] && forall i: nat | i < batchSize :: height + i in round.passes[0].polls(i).blocks
    ensures NextBlocks(round.passes, confirmations, height, batchSize) == Ok(blocks) && blocks != []
    ensures Entries(round, height, blocks) == Offered(round, height, batchSize)
  {
    assert round.passes != [] && forall i: nat | i < batchSize :: height + i in round.passes[0].polls(i).blocks;
    hide *;
    HealthyFills(round, confirmations, height, batchSize);
    blocks := Collect(round.passes[0].polls, confirmations, height, batchSize).value;
    FirstPass(round.passes, confirmations, height, batchSize);
    OfferedLength(round, confirmations, height, batchSize);
    EntriesAt(round, height, blocks, 0);
    var entries, offered := Entries(round, height, blocks), Offered(round, height, batchSize);
    forall i | 0 <= i < batchSize ensures entries[i] == offered[i] {
      CollectedConfirmed(round.passes[0].polls, confirmations, height, batchSize, i);
      OfferedIs(round, height, batchSize, i);
      EntriesAt(round, height, blocks, i);
    }
    assert entries == offered;
  }

  /** A healthy round whose blocks link and parse commits them all; only a block can stop it. */
  lemma HealthyRoundCommits(db: Db, confirmations: nat, height: nat, batchSize: nat, round: Round)
    requires batchSize > 0 && Healthy(round, confirmations, height, batchSize)
    ensures var log := Offered(round, height, batchSize);
            var after := IndexAll(db, log);
            StepRound(db, confirmations, height, batchSize, round)
            == if after.Ok? then Ok((after.value, log)) else Err(after.error)
  {
    hide IndexAll, NextBlocks, Entries, Offered;
    var blocks := OfferedBatch(confirmations, height, batchSize, round);
  }

  /** Healthy rounds one after the other, each asking for the next batch, and no shutdown. */
  ghost predicate HealthyRun(rounds: seq<Round>, confirmations: nat, height: nat, batchSize: nat)
    decreases |rounds|
  {
    rounds == [] ||
    (&& !rounds[0].shutdown && Healthy(rounds[0], confirmations, height, batchSize)
     && HealthyRun(rounds[1..], confirmations, height + batchSize, batchSize))
  }

  /** Only a wrong parent hash or a transaction stops the index here. */
  predicate StoppedByBlock(e: CoreError) {
    e.HashMismatch? || e.ParseFailed?
  }

  lemma {:induction false} IndexAllError(db: Db, log: seq<Indexed>)
    requires IndexAll(db, log).Err?
    ensures IndexAll(db, log).error.HeightGap? || StoppedByBlock(IndexAll(db, log).error)
    decreases |log|
  {
    if log != [] && IndexAll(db, log[..|log| - 1]).Err? {
      IndexAllError(db, log[..|log| - 1]);
    }
  }

  lemma HealthyRound(db: Db, confirmations: nat, height: nat, batchSize: nat, round: Round)
    requires batchSize > 0 && Healthy(round, confirmations, height, batchSize) && Aligned(db, height)
    ensures match StepRound(db, confirmations, height, batchSize, round)
            case Ok((after, added)) => |added| == batchSize && Aligned(after, height + batchSize)
            case Err(e) => StoppedByBlock(e)
  {
    hide IndexAll, StepRound, Aligned, Healthy;
    HealthyRoundCommits(db, confirmations, height, batchSize, round);
    RoundAligned(db, confirmations, height, batchSize, round);
    OfferedLength(round, confirmations, height, batchSize);
    if IndexAll(db, Offered(round, height, batchSize)).Err? {
      IndexAllError(db, Offered(round, height, batchSize));
    }
  }

  lemma OfferedLength(round: Round, confirmations: nat, height: nat, n: nat)
    requires Healthy(round, confirmations, height, n)
    ensures round.passes != [] && forall i: nat | i < n :: height + i in round.passes[0].polls(i).blocks
    ensures |Offered(round, height, n)| == n
  {
  }

  lemma HealthyHead(rounds: seq<Round>, confirmations: nat, height: nat, batchSize: nat)
    requires rounds != [] && HealthyRun(rounds, confirmations, height, batchSize)
    ensures !rounds[0].shutdown && Healthy(rounds[0], confirmations, height, batchSize)
    ensures HealthyRun(rounds[1..], confirmations, height + batchSize, batchSize)
  {
  }

  /** Progress: over a healthy run the index grows by a batch each round, or a block stops it. */
  lemma {:induction false} HealthyRunGrows(
    h: History, confirmations: nat, height: nat, batchSize: nat, rounds: seq<Round>)
    requires batchSize > 0 && HealthyRun(rounds, confirmations, height, batchSize) && Aligned(h.db, height)
    ensures var end := RunRounds(h, confirmations, height, batchSize, rounds);
            match end.outcome
            case Ok(_) => |end.history.log| == |h.log| + |rounds| * batchSize
            case Err(e) => StoppedByBlock(e)
    decreases |rounds|
  {
    hide *;
    FirstRound(h, confirmations, height, batchSize, rounds);
    if rounds != [] {
      HealthyHead(rounds, confirmations, height, batchSize);
      HealthyRound(h.db, confirmations, height, batchSize, rounds[0]);
      if StepRound(h.db, confirmations, height, batchSize, rounds[0]).Ok? {
        var (db, added) := StepRound(h.db, confirmations, height, batchSize, rounds[0]).value;
        HealthyRunGrows(History(db, h.log + added), confirmations, height + batchSize, batchSize, rounds[1..]);
        assert |rounds| * batchSize == batchSize + |rounds[1..]| * batchSize;
      }
    }
  }
}
