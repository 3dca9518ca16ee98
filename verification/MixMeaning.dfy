/** What an accepted mix does, in terms of its message and the tokens it spends. */
module MixMeaning {
  import opened Prelude
  import opened Tokens
  import opened Storage
  import opened TableInvariant
  import opened Transactions
  import opened MixPayload
  import opened MixRouting
  import opened Parser
  import opened Accounting
  import opened Rejection
  import opened Delivery
  import Payload
  import Ledger

  /** Output `v` of the transaction is to get index `i`: it lists it, or takes the rest and nobody lists it. */
  ghost predicate Gets(d: MixData, v: nat, i: nat) {
    && 1 <= v <= |d.outputRanges|
    && if v - 1 == d.complementIndex then forall k: nat :: !ListedBy(d, k, i) else ListedBy(d, v - 1, i)
  }

  /** One of the ranges of entry `k` holds index `i`. */
  ghost predicate ListedBy(d: MixData, k: nat, i: nat) {
    exists a: nat :: ListsAt(d, k, a, i)
  }

  lemma AsksIsListed(d: MixData, k: nat, i: nat)
    ensures Asks(d, k, i) <==> ListedBy(d, k, i)
  {
    if Asks(d, k, i) {
      var r :| r in d.outputRanges[k] && r.start <= i < r.end;
      var a :| 0 <= a < |d.outputRanges[k]| && d.outputRanges[k][a] == r;
      assert ListsAt(d, k, a, i);
    }
    if a: nat :| ListsAt(d, k, a, i) {
      assert d.outputRanges[k][a] in d.outputRanges[k];
    }
  }

  lemma GetsIsReceives(d: MixData, v: nat, i: nat)
    ensures Gets(d, v, i) <==> 1 <= v <= |d.outputRanges| && Receives(d, v - 1, i)
  {
    hide Asks, ListedBy;
    if 1 <= v {
      AsksIsListed(d, v - 1, i);
      forall k: nat ensures Asks(d, k, i) <==> ListedBy(d, k, i) {
        AsksIsListed(d, k, i);
      }
    }
  }

  lemma ShareIs(t: Tables, ins: seq<OutPoint>, d: MixData, v: nat)
    ensures Share(t, ins, d, v) == if 1 <= v <= |d.outputRanges| then Routed(SpentTokens(t, ins), d, v - 1) else []
  {
    hide Flatten, AllRanges, TokenInputs, SpentTokens, Routed;
    IndexedTokens(t, ins);
  }

  lemma InShare(t: Tables, ins: seq<OutPoint>, d: MixData, v: nat, x: Token)
    ensures x in Share(t, ins, d, v)
      <==> exists i :: 0 <= i < |SpentTokens(t, ins)| && SpentTokens(t, ins)[i] == x && Gets(d, v, i)
  {
    hide *;
    var ts := SpentTokens(t, ins);
    ShareIs(t, ins, d, v);
    if x in Share(t, ins, d, v) {
      var p :| 0 <= p < |Share(t, ins, d, v)| && Share(t, ins, d, v)[p] == x;
      var i := RoutedFrom(ts, d, v - 1, p);
      GetsIsReceives(d, v, i);
    }
    if i :| 0 <= i < |ts| && ts[i] == x && Gets(d, v, i) {
      GetsIsReceives(d, v, i);
      RoutedAt(ts, d, v - 1, i);
    }
  }

  /** After an accepted mix an output holds a token exactly when it gets one of the indices the token has. */
  lemma MixHolds(t: Tables, node: Node, tx: Tx, at: Position, d: MixData, v: nat, x: Token)
    requires Inv(t) && Ledger.FreshTxid(t, tx.txid) && StepTx(t, node, tx, at).Ok?
    requires TxPayload(tx) == Some(Payload.Mix(d)) && !RejectedMix(t, tx)
    ensures HeldAt(StepTx(t, node, tx, at).value, OutPoint(tx.txid, v), x)
      <==> exists i :: 0 <= i < |SpentTokens(t, tx.inputs)| && SpentTokens(t, tx.inputs)[i] == x && Gets(d, v, i)
  {
    hide *;
    MixReaches(t, node, tx, at, d, v, x);
    InShare(t, tx.inputs, d, v, x);
  }

  /** With inputs that share no token, an output keeps the order in which its tokens were spent. */
  lemma MixKeepsOrder(t: Tables, node: Node, tx: Tx, at: Position, d: MixData, v: nat, i: nat, j: nat)
    returns (a: nat, b: nat)
    requires Inv(t) && Ledger.FreshTxid(t, tx.txid) && StepTx(t, node, tx, at).Ok?
    requires TxPayload(tx) == Some(Payload.Mix(d)) && !RejectedMix(t, tx) && DisjointInputs(t, tx.inputs)
    requires i < j < |SpentTokens(t, tx.inputs)| && Gets(d, v, i) && Gets(d, v, j)
    ensures var held := TokensAt(StepTx(t, node, tx, at).value, OutPoint(tx.txid, v));
            && a < b < |held|
            && held[a] == SpentTokens(t, tx.inputs)[i] && held[b] == SpentTokens(t, tx.inputs)[j]
  {
    hide *;
    var ts := SpentTokens(t, tx.inputs);
    MixDelivers(t, node, tx, at, d, v);
    ShareIs(t, tx.inputs, d, v);
    GetsIsReceives(d, v, i);
    GetsIsReceives(d, v, j);
    RoutedAt(ts, d, v - 1, i);
    RoutedAt(ts, d, v - 1, j);
    ReceivedGrows(d, v - 1, i, j);
    a, b := ReceivedBefore(d, v - 1, i), ReceivedBefore(d, v - 1, j);
  }
}
