/** Exactly when a mix is rejected, and exactly when a transaction stops the index. */
module Rejection {
  import opened Prelude
  import opened Tokens
  import opened Storage
  import opened TableInvariant
  import opened Transactions
  import opened MixPayload
  import opened Parser
  import opened Accounting
  import Payload
  import MixDigest
  import RegisterDigest
  import Ledger

  /** Output `v` does not exist, or is an OP_RETURN. */
  predicate NotPayable(tx: Tx, v: nat) {
    v >= |tx.outputs| || tx.outputs[v].OpReturn?
  }

  /** Some output lists an index that the inputs do not reach. */
  ghost predicate AsksTooFar(d: MixData, count: nat) {
    exists k: nat, i: nat :: k != d.complementIndex && Asks(d, k, i) && i >= count
  }

  /** No input spends tokens. */
  ghost predicate SpendsNothing(t: Tables, tx: Tx) {
    forall i | 0 <= i < |tx.inputs| :: tx.inputs[i] == NULL_OUTPOINT || UnspentRanges(t, tx.inputs[i]) == []
  }

  /** Some input that spends tokens comes after one, not null, that spends none. */
  ghost predicate PlainBeforeToken(t: Tables, tx: Tx) {
    exists i, j ::
      && 0 <= i < j < |tx.inputs|
      && tx.inputs[i] != NULL_OUTPOINT && UnspentRanges(t, tx.inputs[i]) == []
      && tx.inputs[j] != NULL_OUTPOINT && UnspentRanges(t, tx.inputs[j]) != []
  }

  lemma {:induction false} NoTokenInputs(t: Tables, ins: seq<OutPoint>)
    ensures TokenInputs(t, ins) == []
      <==> forall i | 0 <= i < |ins| :: ins[i] == NULL_OUTPOINT || UnspentRanges(t, ins[i]) == []
    decreases |ins|
  {
    if ins != [] {
      hide UnspentRanges;
      var n := |ins| - 1;
      NoTokenInputs(t, ins[..n]);
      assert forall i | 0 <= i < n :: ins[..n][i] == ins[i];
    }
  }

  lemma TokensFirstMeaning(t: Tables, tx: Tx)
    ensures !TokensFirst(t, tx.inputs) <==> PlainBeforeToken(t, tx)
  {
    hide UnspentRanges;
    if !TokensFirst(t, tx.inputs) {
      var i, j :| 0 <= i < j < |tx.inputs| && IsPlain(t, tx.inputs[i]) && HoldsTokens(t, tx.inputs[j]);
      assert tx.inputs[i] != NULL_OUTPOINT && UnspentRanges(t, tx.inputs[i]) == [];
      assert tx.inputs[j] != NULL_OUTPOINT && UnspentRanges(t, tx.inputs[j]) != [];
    }
    if PlainBeforeToken(t, tx) {
      var i, j :|
        && 0 <= i < j < |tx.inputs|
        && tx.inputs[i] != NULL_OUTPOINT && UnspentRanges(t, tx.inputs[i]) == []
        && tx.inputs[j] != NULL_OUTPOINT && UnspentRanges(t, tx.inputs[j]) != [];
      assert IsPlain(t, tx.inputs[i]) && HoldsTokens(t, tx.inputs[j]);
    }
  }

  /** What makes a mix badly placed, input by input and output by output. */
  lemma BadlyPlacedIff(t: Tables, tx: Tx, d: MixData)
    ensures MixDigest.MixWellPlaced(d, tx, TokenInputs(t, tx.inputs), TokensFirst(t, tx.inputs))
      <==> !(|| tx.inputs == [] || |tx.outputs| <= |d.outputRanges|
             || SpendsNothing(t, tx) || PlainBeforeToken(t, tx))
  {
    NoTokenInputs(t, tx.inputs);
    TokensFirstMeaning(t, tx);
    hide PlainBeforeToken, TokensFirst, TokenInputs, UnspentRanges;
  }

  /** The tokens an input list spends, input by input: what mix indices count over. */
  function SpentTokens(t: Tables, ins: seq<OutPoint>): seq<Token> {
    if ins == [] then []
    else
      var op := ins[|ins| - 1];
      SpentTokens(t, ins[..|ins| - 1]) + if op == NULL_OUTPOINT then [] else TokensAt(t, op)
  }

  /** The index sees the spent tokens in input order, and nothing else. */
  lemma {:induction false} IndexedTokens(t: Tables, ins: seq<OutPoint>)
    ensures Flatten(AllRanges(TokenInputs(t, ins))) == SpentTokens(t, ins)
    decreases |ins|
  {
    if ins != [] {
      var op, before := ins[|ins| - 1], TokenInputs(t, ins[..|ins| - 1]);
      IndexedTokens(t, ins[..|ins| - 1]);
      if HoldsTokens(t, op) {
        var input := TokenInput(op, UnspentRanges(t, op));
        assert (before + [input])[..|before|] == before;
        FlattenConcat(AllRanges(before), input.ranges);
      } else {
        assert before + [] == before;
        assert op != NULL_OUTPOINT ==> TokensAt(t, op) == [];
        assert SpentTokens(t, ins[..|ins| - 1]) + [] == SpentTokens(t, ins[..|ins| - 1]);
      }
    }
  }

  /** How many of these inputs spend tokens. */
  function CountSpending(t: Tables, ins: seq<OutPoint>): nat {
    if ins == [] then 0
    else
      var op := ins[|ins| - 1];
      CountSpending(t, ins[..|ins| - 1]) + if op != NULL_OUTPOINT && UnspentRanges(t, op) != [] then 1 else 0
  }

  lemma {:induction false} SpendingCount(t: Tables, ins: seq<OutPoint>)
    ensures |TokenInputs(t, ins)| == CountSpending(t, ins)
    decreases |ins|
  {
    hide UnspentRanges;
    if ins != [] {
      SpendingCount(t, ins[..|ins| - 1]);
    }
  }

  /** An input that spends tokens is one token input, behind those of the inputs before it, with its stored ranges. */
  lemma {:induction false} TokenInputAt(t: Tables, ins: seq<OutPoint>, i: nat)
    requires i < |ins| && ins[i] != NULL_OUTPOINT && UnspentRanges(t, ins[i]) != []
    ensures CountSpending(t, ins[..i]) < |TokenInputs(t, ins)|
    ensures TokenInputs(t, ins)[CountSpending(t, ins[..i])] == TokenInput(ins[i], UnspentRanges(t, ins[i]))
    decreases |ins|
  {
    hide UnspentRanges;
    var n := |ins| - 1;
    if i < n {
      assert ins[..n][..i] == ins[..i];
      TokenInputAt(t, ins[..n], i);
    } else {
      SpendingCount(t, ins[..n]);
    }
  }

  /**
    A mix message is rejected exactly when it has no inputs, too few outputs, no input with tokens, or a
    plain input before one with tokens; or its indices can be counted and it asks for one past the end, or
    for an output that is missing or an OP_RETURN.
    */
  lemma RejectedMixIff(t: Tables, tx: Tx, d: MixData)
    requires TxPayload(tx) == Some(Payload.Mix(d))
    ensures RejectedMix(t, tx)
      <==> || tx.inputs == [] || |tx.outputs| <= |d.outputRanges|
           || SpendsNothing(t, tx) || PlainBeforeToken(t, tx)
           || (&& MixDigest.Countable(AllRanges(TokenInputs(t, tx.inputs)))
               && (|| AsksTooFar(d, |SpentTokens(t, tx.inputs)|)
                   || exists v :: 1 <= v <= |d.outputRanges| && NotPayable(tx, v)))
  {
    PayloadValid(tx);
    BadlyPlacedIff(t, tx, d);
    IndexedTokens(t, tx.inputs);
    TokenCountMeaning(d, |SpentTokens(t, tx.inputs)|);
    hide TokenInputs, AllRanges, Flatten, TokensFirst, ValidateTokenCount, MixDigest.MixWellPlaced, MixDigest.Countable,
      Asks, ValidBasic, SpendsNothing, PlainBeforeToken, SpentTokens;
    assert MixDigest.OutputsSpendable(d, tx) <==> !exists v :: 1 <= v <= |d.outputRanges| && NotPayable(tx, v) by {
      assert forall v: nat :: MixDigest.SpendableAt(tx, v) <==> !NotPayable(tx, v);
    }
  }

  /** Indices over the spent tokens can be counted exactly when their number fits 128 bits. */
  lemma CountableIff(t: Tables, tx: Tx)
    requires RangesSound(t)
    ensures MixDigest.Countable(AllRanges(TokenInputs(t, tx.inputs)))
      <==> |SpentTokens(t, tx.inputs)| < 0x1_0000_0000_0000_0000_0000_0000_0000_0000
  {
    hide RangesSound, TokenInputs, AllRanges, Flatten;
    Ledger.InputsStorable(t, tx.inputs);
    IndexedTokens(t, tx.inputs);
  }

  /** With fewer than 2^32 stored ranges among the inputs their tokens can always be counted. */
  lemma UsuallyCountable(t: Tables, tx: Tx)
    requires RangesSound(t) && |AllRanges(TokenInputs(t, tx.inputs))| <= U32_MAX
    ensures MixDigest.Countable(AllRanges(TokenInputs(t, tx.inputs)))
  {
    Ledger.InputsStorable(t, tx.inputs);
    MixDigest.FewRangesCountable(AllRanges(TokenInputs(t, tx.inputs)));
  }

  /** A badly placed mix forfeits what it spends: a token that only its inputs held is held by nobody afterwards. */
  lemma BadlyPlacedMixForfeits(t: Tables, node: Node, tx: Tx, at: Position, d: MixData, x: Token)
    requires Inv(t) && Ledger.FreshTxid(t, tx.txid) && TxPayload(tx) == Some(Payload.Mix(d))
    requires |tx.outputs| <= |d.outputRanges| || SpendsNothing(t, tx) || PlainBeforeToken(t, tx)
    requires forall op | HeldAt(t, op, x) :: op != NULL_OUTPOINT && op in tx.inputs
    ensures StepTx(t, node, tx, at).Ok? && !Held(StepTx(t, node, tx, at).value, x)
  {
    RejectedMixIff(t, tx, d);
    StepFailsIff(t, node, tx, at);
    BadlyPlacedIff(t, tx, d);
    hide Inv, StepTx, RejectedMix, SpendsNothing, PlainBeforeToken, HeldAt, TxPayload;
    RejectedMixForfeits(t, node, tx, at, x);
  }

  /** The output that input 0 spends cannot be looked up. */
  predicate BaseUnknown(node: Node, tx: Tx) {
    || tx.inputs == [] || tx.inputs[0] == NULL_OUTPOINT
    || tx.inputs[0].txid !in node.raw || tx.inputs[0].vout >= |node.raw[tx.inputs[0].txid]|
  }

  /**
    Exactly when a transaction ends in an error, and with it the daemon: a registration without inputs, an
    ownership message with more groups than outputs to give them to, one for a known collection whose
    base cannot be looked up, or a well-placed mix over more tokens than a `u128` counts.
    */
  lemma StepFailsIff(t: Tables, node: Node, tx: Tx, at: Position)
    ensures StepTx(t, node, tx, at).Err?
      <==> match TxPayload(tx)
           case None => false
           case Some(RegisterCollection(_)) => tx.inputs == []
           case Some(RegisterOwnership(d)) =>
             || tx.inputs == [] || |d.groups| >= |tx.outputs|
             || (CollectionKey(d.collectionHeight, d.collectionTxIndex) in t.collections && BaseUnknown(node, tx))
           case Some(Mix(d)) =>
             && tx.inputs != [] && |tx.outputs| > |d.outputRanges|
             && !SpendsNothing(t, tx) && !PlainBeforeToken(t, tx)
             && !MixDigest.Countable(AllRanges(TokenInputs(t, tx.inputs)))
  {
    hide SpendsNothing, PlainBeforeToken, TokenInputs, AllRanges, MixDigest.Countable, MixDigest.MixWellPlaced,
      TokensFirst;
    if TxPayload(tx).Some? && TxPayload(tx).value.Mix? {
      BadlyPlacedIff(t, tx, TxPayload(tx).value.mix);
    }
    if TxPayload(tx).Some? && TxPayload(tx).value.RegisterOwnership? {
      PayloadValid(tx);
      assert BaseUnknown(node, tx) <==> RegisterDigest.BaseH160(node, tx).Err?;
    }
  }

  /** A mix can stop the index only with 2^32 input ranges or more. */
  lemma MixFailsOnlyWhenHuge(t: Tables, node: Node, tx: Tx, at: Position, d: MixData)
    requires RangesSound(t) && TxPayload(tx) == Some(Payload.Mix(d)) && StepTx(t, node, tx, at).Err?
    ensures |AllRanges(TokenInputs(t, tx.inputs))| > U32_MAX
  {
    StepFailsIff(t, node, tx, at);
    if |AllRanges(TokenInputs(t, tx.inputs))| <= U32_MAX {
      UsuallyCountable(t, tx);
    }
  }
}
