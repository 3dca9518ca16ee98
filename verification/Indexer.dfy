/**
  The indexer loop: batches of blocks, each written in one storage transaction.

  A `Session` is the life of one daemon process, from start to whatever ends it: shutdown, a failing
  call, a parse error, a reorg, or a crash between or inside rounds. The database is all that one
  session leaves to the next.
  */
module Indexer {
  import opened Prelude
  import opened Storage
  import opened TableInvariant
  import opened Transactions
  import opened Parser
  import opened BlockParser
  import opened Scanner

  datatype CoreError =
    | ScanFailed
    | HeightGap(expected: nat, got: nat)
    | HashMismatch(height: nat)
    | ParseFailed(error: Brc721Error)
    | StorageFailed

  /**
    What the world does during one `step`: what the node answers while blocks are collected and, per
    block of the batch, while it is parsed; whether opening and committing the transaction works; and
    the block, if any, at which a storage or node call fails. `shutdown` is read before the step.
    */
  datatype Round = Round(
    shutdown: bool, passes: seq<Pass>, node: nat -> Node, begins: bool, fault: Option<nat>, commits: bool)

  datatype Session = Session(start: nat, confirmations: nat, capacity: nat, rounds: seq<Round>)

  /** A block in the index, with the node that answered while it was parsed. */
  datatype Indexed = Indexed(height: nat, block: Block, node: Node)

  /** The database, and the blocks committed to it. */
  datatype History = History(db: Db, log: seq<Indexed>)

  /** How a process ends: what it leaves behind, and what `run` returns. */
  datatype Ending = Ending(history: History, outcome: Result<(), CoreError>)

  // ---------------------------------------------------------------------------
  // One block, one batch
  // ---------------------------------------------------------------------------

  function Contiguous(last: Option<BlockRef>, height: nat, block: Block): Result<(), CoreError> {
    if last.None? then Ok(())
    else if height != last.value.height + 1 then Err(HeightGap(last.value.height + 1, height))
    else if block.prevHash != last.value.hash then Err(HashMismatch(height))
    else Ok(())
  }

  ghost function IndexBlock(db: Db, e: Indexed): Result<Db, CoreError> {
    var linked :- Contiguous(db.last, e.height, e.block);
    match RunTxs(db.tables, e.node, Placed(e.block, e.height))
    case Ok(t) => Ok(Db(Some(BlockRef(e.height, e.block.hash)), t))
    case Err(error) => Err(ParseFailed(error))
  }

  /** One block at a time. */
  ghost function IndexAll(db: Db, log: seq<Indexed>): Result<Db, CoreError> {
    if log == [] then Ok(db)
    else
      var before :- IndexAll(db, log[..|log| - 1]);
      IndexBlock(before, log[|log| - 1])
  }

  function Entries(round: Round, height: nat, blocks: seq<Block>): seq<Indexed> {
    seq(|blocks|, i requires 0 <= i < |blocks| => Indexed(height + i, blocks[i], round.node(i)))
  }

  /** The fault strikes within the first `n` blocks, unless one of those already failed. */
  ghost function IndexBatch(db: Db, round: Round, log: seq<Indexed>): Result<Db, CoreError> {
    if round.fault.Some? && round.fault.value < |log| then
      var before :- IndexAll(db, log[..round.fault.value]);
      Err(StorageFailed)
    else IndexAll(db, log)
  }

  /** What a step commits: nothing, or a batch. */
  ghost function StepRound(db: Db, confirmations: nat, height: nat, batchSize: nat, round: Round)
    : Result<(Db, seq<Indexed>), CoreError>
  {
    match NextBlocks(round.passes, confirmations, height, batchSize)
    case Err(_) => Err(ScanFailed)
    case Ok(blocks) =>
      if blocks == [] then Ok((db, []))
      else if !round.begins then Err(StorageFailed)
      else
        var log := Entries(round, height, blocks);
        var after :- IndexBatch(db, round, log);
        if round.commits then Ok((after, log)) else Err(StorageFailed)
  }

  /** The rounds of one process, until shutdown or the first error. */
  ghost function RunRounds(h: History, confirmations: nat, height: nat, batchSize: nat, rounds: seq<Round>): Ending
    decreases |rounds|
  {
    if rounds == [] || rounds[0].shutdown then Ending(h, Ok(()))
    else match StepRound(h.db, confirmations, height, batchSize, rounds[0])
      case Err(e) => Ending(h, Err(e))
      case Ok((db, added)) =>
        RunRounds(History(db, h.log + added), confirmations, height + |added|, batchSize, rounds[1..])
  }

  /** `determine_start_block`. */
  function StartBlock(db: Db, default: nat): nat {
    if db.last.Some? then db.last.value.height + 1 else default
  }

  ghost function RunSession(h: History, s: Session): Ending {
    RunRounds(h, s.confirmations, StartBlock(h.db, s.start), if s.capacity > 1 then s.capacity else 1, s.rounds)
  }

  /** Process after process over one database file. */
  ghost function RunSessions(sessions: seq<Session>): History {
    if sessions == [] then History(EMPTY_DB, [])
    else RunSession(RunSessions(sessions[..|sessions| - 1]), sessions[|sessions| - 1]).history
  }

  // ---------------------------------------------------------------------------
  // Batches keep the stored ranges sound
  // ---------------------------------------------------------------------------

  lemma IndexBlockKeepsSound(db: Db, e: Indexed)
    requires RangesSound(db.tables) && IndexBlock(db, e).Ok?
    ensures RangesSound(IndexBlock(db, e).value.tables)
  {
    RunKeepsSound(db.tables, e.node, Placed(e.block, e.height));
  }

  lemma {:induction false} IndexAllKeepsSound(db: Db, log: seq<Indexed>)
    requires RangesSound(db.tables) && IndexAll(db, log).Ok?
    ensures RangesSound(IndexAll(db, log).value.tables)
    decreases |log|
  {
    if log != [] {
      IndexAllKeepsSound(db, log[..|log| - 1]);
      IndexBlockKeepsSound(IndexAll(db, log[..|log| - 1]).value, log[|log| - 1]);
    }
  }

  lemma {:induction false} IndexAllStopped(db: Db, log: seq<Indexed>, n: nat)
    requires n <= |log| && IndexAll(db, log[..n]).Err?
    ensures IndexAll(db, log) == IndexAll(db, log[..n])
    decreases |log|
  {
    if n == |log| {
      assert log[..n] == log;
    } else {
      assert log[..|log| - 1][..n] == log[..n];
      IndexAllStopped(db, log[..|log| - 1], n);
    }
  }

  lemma IndexAllStep(db: Db, log: seq<Indexed>, i: nat)
    requires i < |log| && IndexAll(db, log[..i]).Ok?
    ensures IndexAll(db, log[..i + 1]) == IndexBlock(IndexAll(db, log[..i]).value, log[i])
  {
    assert log[..i + 1][..i] == log[..i];
  }

  lemma IndexNothing(db: Db, log: seq<Indexed>)
    ensures IndexAll(db, log[..0]) == Ok(db)
  {
  }

  /** A batch fails with the error of its first failing block, unless the fault comes first. */
  lemma BatchStopped(db: Db, round: Round, log: seq<Indexed>, n: nat)
    requires n <= |log| && IndexAll(db, log[..n]).Err?
    requires round.fault.Some? ==> round.fault.value >= n
    ensures IndexBatch(db, round, log) == IndexAll(db, log[..n])
  {
    IndexAllStopped(db, log, n);
    if round.fault.Some? && round.fault.value < |log| {
      assert log[..round.fault.value][..n] == log[..n];
      IndexAllStopped(db, log[..round.fault.value], n);
    }
  }

  lemma BatchFaults(db: Db, round: Round, log: seq<Indexed>, n: nat)
    requires n < |log| && IndexAll(db, log[..n]).Ok? && round.fault == Some(n)
    ensures IndexBatch(db, round, log) == Err(StorageFailed)
  {
  }

  lemma BatchDone(db: Db, round: Round, log: seq<Indexed>)
    requires round.fault.Some? ==> round.fault.value >= |log|
    ensures IndexBatch(db, round, log) == IndexAll(db, log[..|log|])
  {
    assert log[..|log|] == log;
  }

  // ---------------------------------------------------------------------------
  // The code of the core loop
  // ---------------------------------------------------------------------------

  ghost predicate WfPasses(passes: seq<Pass>) {
    forall k, i: nat, h | 0 <= k < |passes| && h in passes[k].polls(i).blocks :: WfBlock(passes[k].polls(i).blocks[h])
  }

  method EnsureContiguousChain(tx: SqliteTx, height: nat, block: Block) returns (r: Result<(), CoreError>)
    ensures r == Contiguous(tx.last, height, block) && unchanged(tx)
  {
    if tx.last.None? {
      return Ok(());
    }
    var last := tx.last.value;
    var expectedHeight := last.height + 1;
    if height != expectedHeight {
      return Err(HeightGap(expectedHeight, height));
    }
    if block.prevHash != last.hash {
      return Err(HashMismatch(height));
    }
    return Ok(());
  }

  method ProcessBlock(tx: SqliteTx, node: Node, height: nat, block: Block) returns (r: Result<(), CoreError>)
    requires RangesSound(tx.Snapshot().tables) && WfBlock(block)
    modifies tx
    ensures match IndexBlock(old(tx.Snapshot()), Indexed(height, block, node))
            case Ok(db) => r.Ok? && tx.Snapshot() == db
            case Err(e) => r == Err(e)
  {
    var linked := EnsureContiguousChain(tx, height, block);
    if linked.Err? {
      return Err(linked.error);
    }
    var parsed := ParseBlock(tx, node, block, height);
    if parsed.Err? {
      return Err(ParseFailed(parsed.error));
    }
    return Ok(());
  }

  /** The batch inside the open transaction. */
  method ProcessBatch(tx: SqliteTx, round: Round, blocks: seq<(nat, Block)>, ghost log: seq<Indexed>)
    returns (r: Result<(), CoreError>)
    requires RangesSound(tx.Snapshot().tables)
    requires |blocks| == |log|
    requires forall i | 0 <= i < |blocks| ::
      WfBlock(blocks[i].1) && log[i] == Indexed(blocks[i].0, blocks[i].1, round.node(i))
    modifies tx
    ensures match IndexBatch(old(tx.Snapshot()), round, log)
            case Ok(db) => r.Ok? && tx.Snapshot() == db
            case Err(e) => r == Err(e)
  {
    hide *;
    ghost var db := tx.Snapshot();
    IndexNothing(db, log);
    for i := 0 to |blocks|
      invariant IndexAll(db, log[..i]) == Ok(tx.Snapshot())
      invariant round.fault.Some? ==> round.fault.value >= i
    {
      if round.fault == Some(i) {
        BatchFaults(db, round, log, i);
        return Err(StorageFailed);
      }
      IndexAllKeepsSound(db, log[..i]);
      IndexAllStep(db, log, i);
      var (height, block) := blocks[i];
      var processed := ProcessBlock(tx, round.node(i), height, block);
      if processed.Err? {
        BatchStopped(db, round, log, i + 1);
        return Err(processed.error);
      }
    }
    BatchDone(db, round, log);
    return Ok(());
  }

  lemma BatchWf(passes: seq<Pass>, confirmations: nat, height: nat, batchSize: nat)
    requires WfPasses(passes) && NextBlocks(passes, confirmations, height, batchSize).Ok?
    ensures forall i | 0 <= i < |NextBlocks(passes, confirmations, height, batchSize).value| ::
      WfBlock(NextBlocks(passes, confirmations, height, batchSize).value[i])
  {
    var blocks := NextBlocks(passes, confirmations, height, batchSize).value;
    forall i | 0 <= i < |blocks| ensures WfBlock(blocks[i]) {
      var k := BatchConfirmed(passes, confirmations, height, batchSize, i);
    }
  }

  class Core {
    const scanner: Scanner
    const storage: SqliteStorage

    constructor (scanner: Scanner, storage: SqliteStorage)
      ensures this.scanner == scanner && this.storage == storage
    {
      this.scanner := scanner;
      this.storage := storage;
    }

    method Step(round: Round) returns (r: Result<(), CoreError>)
      requires RangesSound(storage.disk.tables) && WfPasses(round.passes)
      modifies scanner`currentHeight, storage
      ensures match StepRound(
                old(storage.disk), scanner.confirmations, old(scanner.currentHeight), scanner.batchSize, round)
              case Ok((db, added)) =>
                r.Ok? && storage.disk == db && scanner.currentHeight == old(scanner.currentHeight) + |added|
              case Err(e) => r == Err(e) && storage.disk == old(storage.disk)
    {
      ghost var height := scanner.currentHeight;
      var blocks := scanner.NextBlocksWithShutdown(round.passes);
      if blocks.Err? {
        return Err(ScanFailed);
      }
      if |blocks.value| == 0 {
        return Ok(());
      }
      if !round.begins {
        return Err(StorageFailed);
      }
      var tx := storage.BeginTx();
      ghost var batch := NextBlocks(round.passes, scanner.confirmations, height, scanner.batchSize).value;
      BatchWf(round.passes, scanner.confirmations, height, scanner.batchSize);
      var processed := ProcessBatch(tx, round, blocks.value, Entries(round, height, batch));
      if processed.Err? {
        return Err(processed.error);
      }
      if !round.commits {
        return Err(StorageFailed);
      }
      storage.Commit(tx);
      return Ok(());
    }

    method Run(rounds: seq<Round>, ghost indexed: seq<Indexed>) returns (r: Result<(), CoreError>)
      requires RangesSound(storage.disk.tables) && forall k | 0 <= k < |rounds| :: WfPasses(rounds[k].passes)
      modifies scanner`currentHeight, storage
      ensures var end := RunRounds(
                History(old(storage.disk), indexed), scanner.confirmations, old(scanner.currentHeight),
                scanner.batchSize, rounds);
              storage.disk == end.history.db && r == end.outcome
      ensures RangesSound(storage.disk.tables)
    {
      hide *;
      ghost var start := History(storage.disk, indexed);
      ghost var height := scanner.currentHeight;
      assert rounds[0..] == rounds;
      ghost var log := indexed;
      var i := 0;
      while i < |rounds| && !rounds[i].shutdown
        invariant i <= |rounds|
        invariant RangesSound(storage.disk.tables)
        invariant RunRounds(start, scanner.confirmations, height, scanner.batchSize, rounds)
               == RunRounds(
                    History(storage.disk, log), scanner.confirmations, scanner.currentHeight,
                    scanner.batchSize, rounds[i..])
      {
        ghost var before := History(storage.disk, log);
        ghost var from := scanner.currentHeight;
        RunRoundsStep(before, scanner.confirmations, from, scanner.batchSize, rounds, i);
        var stepped := Step(rounds[i]);
        if stepped.Err? {
          return stepped;
        }
        RoundKeepsSound(before.db, scanner.confirmations, from, scanner.batchSize, rounds[i]);
        log := log + StepRound(before.db, scanner.confirmations, from, scanner.batchSize, rounds[i]).value.1;
        i := i + 1;
      }
      RunRoundsEnd(
        History(storage.disk, log), scanner.confirmations, scanner.currentHeight, scanner.batchSize, rounds, i);
      return Ok(());
    }
  }

  lemma RunRoundsEnd(h: History, confirmations: nat, height: nat, batchSize: nat, rounds: seq<Round>, i: nat)
    requires i <= |rounds| && (i < |rounds| ==> rounds[i].shutdown)
    ensures RunRounds(h, confirmations, height, batchSize, rounds[i..]) == Ending(h, Ok(()))
  {
  }

  lemma RunRoundsStep(h: History, confirmations: nat, height: nat, batchSize: nat, rounds: seq<Round>, i: nat)
    requires i < |rounds| && !rounds[i].shutdown
    ensures RunRounds(h, confirmations, height, batchSize, rounds[i..])
         == match StepRound(h.db, confirmations, height, batchSize, rounds[i])
            case Err(e) => Ending(h, Err(e))
            case Ok((db, added)) =>
              RunRounds(History(db, h.log + added), confirmations, height + |added|, batchSize, rounds[i + 1..])
  {
    assert rounds[i..][1..] == rounds[i + 1..];
  }

  lemma RoundKeepsSound(db: Db, confirmations: nat, height: nat, batchSize: nat, round: Round)
    requires RangesSound(db.tables) && StepRound(db, confirmations, height, batchSize, round).Ok?
    ensures RangesSound(StepRound(db, confirmations, height, batchSize, round).value.0.tables)
  {
    var blocks := NextBlocks(round.passes, confirmations, height, batchSize).value;
    if blocks != [] {
      IndexAllKeepsSound(db, Entries(round, height, blocks));
    }
  }

  method DetermineStartBlock(storage: SqliteStorage, default: nat) returns (start: nat)
    ensures start == StartBlock(storage.disk, default) && unchanged(storage)
  {
    var lastProcessed := storage.disk.last;
    return if lastProcessed.Some? then lastProcessed.value.height + 1 else default;
  }

  /** The daemon: builds scanner and core on the database file and runs. `indexed` is what earlier sessions did. */
  method RunDaemon(storage: SqliteStorage, s: Session, ghost indexed: seq<Indexed>) returns (r: Result<(), CoreError>)
    requires RangesSound(storage.disk.tables) && forall k | 0 <= k < |s.rounds| :: WfPasses(s.rounds[k].passes)
    modifies storage
    ensures var end := RunSession(History(old(storage.disk), indexed), s);
            storage.disk == end.history.db && r == end.outcome
    ensures RangesSound(storage.disk.tables)
  {
    var startBlock := DetermineStartBlock(storage, s.start);
    var scanner := new Scanner(s.confirmations, s.capacity, startBlock);
    var core := new Core(scanner, storage);
    r := core.Run(s.rounds, indexed);
  }
}
