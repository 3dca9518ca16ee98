/**
  The block scanner: it asks the node for the tip and hands out confirmed blocks in height order.

  What the node answers is data of the model. `Poll` is what one attempt to fetch a block would see;
  polls are not assumed to agree with each other.
  */
module Scanner {
  import opened Prelude
  import opened Parser

  /** One look at the node: `None`, or a height missing from `blocks`, is a failing RPC call. */
  datatype Poll = Poll(tip: Option<nat>, blocks: map<nat, Block>)

  /**
    One pass of the polling loop: the polls it makes, whether shutdown is requested by its end, and
    whether waiting for a new block succeeds.
    */
  datatype Pass = Pass(polls: nat -> Poll, cancelled: bool, waits: bool)

  datatype RpcError = RpcError

  // ---------------------------------------------------------------------------
  // What the scanner returns
  // ---------------------------------------------------------------------------

  /** The block at `height` has the confirmations asked for. */
  predicate Confirmed(poll: Poll, confirmations: nat, height: nat) {
    poll.tip.Some? && height + confirmations <= poll.tip.value
  }

  function Ready(poll: Poll, confirmations: nat, height: nat): Result<Option<Block>, RpcError> {
    if poll.tip.None? then Err(RpcError)
    else if !Confirmed(poll, confirmations, height) then Ok(None)
    else if height !in poll.blocks then Err(RpcError)
    else Ok(Some(poll.blocks[height]))
  }

  /** One fetch yields the block, waits, or fails. */
  lemma ReadyIff(poll: Poll, confirmations: nat, height: nat)
    ensures Ready(poll, confirmations, height).Ok? && Ready(poll, confirmations, height).value.Some?
      <==> poll.tip.Some? && height + confirmations <= poll.tip.value && height in poll.blocks
    ensures Ready(poll, confirmations, height) == Ok(None)
      <==> poll.tip.Some? && height + confirmations > poll.tip.value
  {
  }

  /** The blocks that `n` fetches yield, from `height` on: the first fetch without a block ends the batch. */
  function Collect(polls: nat -> Poll, confirmations: nat, height: nat, n: nat): Result<seq<Block>, RpcError> {
    if n == 0 then Ok([])
    else
      var before :- Collect(polls, confirmations, height, n - 1);
      if |before| < n - 1 then Ok(before)
      else
        var next :- Ready(polls(n - 1), confirmations, height + (n - 1));
        Ok(if next.Some? then before + [next.value] else before)
  }

  function NextBlocks(passes: seq<Pass>, confirmations: nat, height: nat, batchSize: nat)
    : Result<seq<Block>, RpcError>
  {
    if batchSize == 0 then Ok([])
    else if passes == [] then Err(RpcError)
    else
      var blocks :- Collect(passes[0].polls, confirmations, height, batchSize);
      if blocks != [] || passes[0].cancelled then Ok(blocks)
      else if !passes[0].waits then Err(RpcError)
      else NextBlocks(passes[1..], confirmations, height, batchSize)
  }

  // ---------------------------------------------------------------------------
  // Every block handed out was confirmed when it was read
  // ---------------------------------------------------------------------------

  lemma {:induction false} CollectedConfirmed(polls: nat -> Poll, confirmations: nat, height: nat, n: nat, i: nat)
    requires Collect(polls, confirmations, height, n).Ok?
    ensures |Collect(polls, confirmations, height, n).value| <= n
    ensures i < |Collect(polls, confirmations, height, n).value| ==>
      && Confirmed(polls(i), confirmations, height + i) && height + i in polls(i).blocks
      && Collect(polls, confirmations, height, n).value[i] == polls(i).blocks[height + i]
  {
    if n > 0 {
      CollectedConfirmed(polls, confirmations, height, n - 1, i);
    }
  }

  /**
    For every block of a batch there is a poll that saw it, at its height, and saw the tip at least
    `confirmations` above it.
    */
  lemma {:induction false} BatchConfirmed(passes: seq<Pass>, confirmations: nat, height: nat, batchSize: nat, i: nat)
    returns (k: nat)
    requires NextBlocks(passes, confirmations, height, batchSize).Ok?
    requires i < |NextBlocks(passes, confirmations, height, batchSize).value|
    ensures k < |passes| && i < batchSize
    ensures passes[k].polls(i).tip.Some? && height + i + confirmations <= passes[k].polls(i).tip.value
    ensures height + i in passes[k].polls(i).blocks
    ensures NextBlocks(passes, confirmations, height, batchSize).value[i] == passes[k].polls(i).blocks[height + i]
  {
    CollectedConfirmed(passes[0].polls, confirmations, height, batchSize, i);
    if Collect(passes[0].polls, confirmations, height, batchSize).value != [] {
      k := 0;
    } else {
      k := BatchConfirmed(passes[1..], confirmations, height, batchSize, i);
      k := k + 1;
    }
  }

  /** While every poll sees the next block confirmed, the batch fills up. */
  lemma {:induction false} CollectFills(polls: nat -> Poll, confirmations: nat, height: nat, n: nat)
    requires forall i: nat | i < n ::
      Confirmed(polls(i), confirmations, height + i) && height + i in polls(i).blocks
    ensures Collect(polls, confirmations, height, n).Ok?
    ensures |Collect(polls, confirmations, height, n).value| == n
  {
    if n > 0 {
      CollectFills(polls, confirmations, height, n - 1);
      assert Confirmed(polls(n - 1), confirmations, height + (n - 1));
    }
  }

  /** A batch ends early only where the next block is not confirmed yet. */
  lemma {:induction false} ShortBatch(polls: nat -> Poll, confirmations: nat, height: nat, n: nat)
    requires Collect(polls, confirmations, height, n).Ok?
    ensures var m := |Collect(polls, confirmations, height, n).value|;
            m < n ==> polls(m).tip.Some? && polls(m).tip.value < height + m + confirmations
  {
    if n > 0 {
      ShortBatch(polls, confirmations, height, n - 1);
    }
  }

  /** Collecting fails only where a call fails: there is no tip, or a confirmed block is missing. */
  lemma {:induction false} FailedBatch(polls: nat -> Poll, confirmations: nat, height: nat, n: nat) returns (i: nat)
    requires Collect(polls, confirmations, height, n).Err?
    ensures i < n && (polls(i).tip.None? || height + i !in polls(i).blocks)
  {
    if Collect(polls, confirmations, height, n - 1).Err? {
      i := FailedBatch(polls, confirmations, height, n - 1);
    } else {
      i := n - 1;
    }
  }

  /** An empty batch means shutdown: the passes before saw nothing and waited, the last one was cancelled. */
  lemma {:induction false} EmptyBatch(passes: seq<Pass>, confirmations: nat, height: nat, batchSize: nat)
    returns (k: nat)
    requires batchSize > 0 && NextBlocks(passes, confirmations, height, batchSize) == Ok([])
    ensures k < |passes| && passes[k].cancelled
    ensures forall j | 0 <= j < k :: passes[j].waits && !passes[j].cancelled
    ensures forall j | 0 <= j <= k ::
              passes[j].polls(0).tip.Some? && passes[j].polls(0).tip.value < height + confirmations
  {
    ShortBatch(passes[0].polls, confirmations, height, batchSize);
    if passes[0].cancelled {
      k := 0;
    } else {
      var rest := EmptyBatch(passes[1..], confirmations, height, batchSize);
      k := rest + 1;
      forall j | 0 <= j <= k
        ensures passes[j].polls(0).tip.Some? && passes[j].polls(0).tip.value < height + confirmations
        ensures j < k ==> passes[j].waits && !passes[j].cancelled
      {
        if j > 0 {
          assert passes[j] == passes[1..][j - 1];
        }
      }
    }
  }

  /** A fetch that fails or yields no block settles the batch. */
  lemma {:induction false} CollectSettled(polls: nat -> Poll, confirmations: nat, height: nat, n: nat, m: nat)
    requires n <= m
    requires Collect(polls, confirmations, height, n).Ok? ==> |Collect(polls, confirmations, height, n).value| < n
    ensures Collect(polls, confirmations, height, m) == Collect(polls, confirmations, height, n)
    decreases m
  {
    if n < m {
      CollectSettled(polls, confirmations, height, n, m - 1);
    }
  }

  /** The heights the blocks of a batch are paired with. */
  function WithHeights(height: nat, blocks: seq<Block>): seq<(nat, Block)> {
    seq(|blocks|, i requires 0 <= i < |blocks| => (height + i, blocks[i]))
  }

  lemma WithHeightsPush(height: nat, blocks: seq<Block>, b: Block)
    ensures WithHeights(height, []) == []
    ensures WithHeights(height, blocks + [b]) == WithHeights(height, blocks) + [(height + |blocks|, b)]
  {
  }

  lemma CollectNothing(polls: nat -> Poll, confirmations: nat, height: nat)
    ensures Collect(polls, confirmations, height, 0) == Ok([]) && WithHeights(height, []) == []
  {
  }

  lemma CollectStep(polls: nat -> Poll, confirmations: nat, height: nat, blocks: seq<Block>)
    requires Collect(polls, confirmations, height, |blocks|) == Ok(blocks)
    ensures Collect(polls, confirmations, height, |blocks| + 1)
         == match Ready(polls(|blocks|), confirmations, height + |blocks|)
            case Ok(None) => Ok(blocks)
            case Ok(Some(b)) => Ok(blocks + [b])
            case Err(e) => Err(e)
  {
  }

  // ---------------------------------------------------------------------------
  // The code of the scanner
  // ---------------------------------------------------------------------------

  class Scanner {
    var confirmations: nat
    var currentHeight: nat
    var batchSize: nat

    /** `new`, then `with_confirmations`, `with_capacity` and `with_start_from`. */
    constructor (confirmations: nat, capacity: nat, height: nat)
      ensures this.confirmations == confirmations && currentHeight == height
      ensures batchSize == if capacity > 1 then capacity else 1
    {
      this.confirmations := confirmations;
      batchSize := if capacity > 1 then capacity else 1;
      currentHeight := height;
    }

    method NextReadyBlock(poll: Poll) returns (r: Result<Option<(nat, Block)>, RpcError>)
      modifies this`currentHeight
      ensures match Ready(poll, confirmations, old(currentHeight))
              case Ok(None) => r == Ok(None) && currentHeight == old(currentHeight)
              case Ok(Some(b)) =>
                r == Ok(Some((old(currentHeight), b))) && currentHeight == old(currentHeight) + 1
              case Err(e) => r == Err(e) && currentHeight == old(currentHeight)
    {
      if poll.tip.None? {
        return Err(RpcError);
      }
      var tip := poll.tip.value;
      if tip < confirmations {
        return Ok(None);
      }
      var target := tip - confirmations;
      if currentHeight > target {
        return Ok(None);
      }
      var height := currentHeight;
      if height !in poll.blocks {
        return Err(RpcError);
      }
      currentHeight := currentHeight + 1;
      return Ok(Some((height, poll.blocks[height])));
    }

    method CollectReadyBlocks(polls: nat -> Poll) returns (r: Result<seq<(nat, Block)>, RpcError>)
      modifies this`currentHeight
      ensures match Collect(polls, confirmations, old(currentHeight), batchSize)
              case Ok(blocks) =>
                && r == Ok(WithHeights(old(currentHeight), blocks))
                && currentHeight == old(currentHeight) + |blocks|
              case Err(e) => r == Err(e)
    {
      hide *;
      ghost var h := currentHeight;
      CollectNothing(polls, confirmations, h);
      var out := [];
      ghost var blocks: seq<Block> := [];
      for i := 0 to batchSize
        invariant Collect(polls, confirmations, h, i) == Ok(blocks)
        invariant |blocks| == i && out == WithHeights(h, blocks) && currentHeight == h + i
      {
        CollectStep(polls, confirmations, h, blocks);
        var next := NextReadyBlock(polls(i));
        if next.Err? {
          CollectSettled(polls, confirmations, h, i + 1, batchSize);
          return Err(next.error);
        }
        if next.value.None? {
          CollectSettled(polls, confirmations, h, i + 1, batchSize);
          return Ok(out);
        }
        out := out + [next.value.value];
        WithHeightsPush(h, blocks, next.value.value.1);
        blocks := blocks + [next.value.value.1];
      }
      return Ok(out);
    }

    method NextBlocksWithShutdown(passes: seq<Pass>) returns (r: Result<seq<(nat, Block)>, RpcError>)
      modifies this`currentHeight
      ensures match NextBlocks(passes, confirmations, old(currentHeight), batchSize)
              case Ok(blocks) =>
                && r == Ok(WithHeights(old(currentHeight), blocks))
                && currentHeight == old(currentHeight) + |blocks|
              case Err(e) => r == Err(e)
    {
      ghost var h := currentHeight;
      assert WithHeights(h, []) == [];
      hide Collect;
      if batchSize == 0 {
        return Ok([]);
      }
      for k := 0 to |passes|
        invariant currentHeight == h
        invariant NextBlocks(passes, confirmations, h, batchSize)
               == NextBlocks(passes[k..], confirmations, h, batchSize)
      {
        var blocks := CollectReadyBlocks(passes[k].polls);
        if blocks.Err? {
          return Err(blocks.error);
        }
        if |blocks.value| > 0 || passes[k].cancelled {
          return blocks;
        }
        if !passes[k].waits {
          return Err(RpcError);
        }
        assert passes[k..][1..] == passes[k + 1..];
      }
      return Err(RpcError);
    }
  }
}
