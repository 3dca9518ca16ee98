/**
  Rearranging a funded PSBT: the OP_RETURN output first, the requested inputs first, and every input
  and output still beside its own metadata.
  */
module Psbt {
  import opened Prelude
  import opened Storage
  import opened Transactions

  datatype TxOut = TxOut(script: Script, amount: nat)

  /** `unsigned_tx.input`, `unsigned_tx.output`, and the metadata maps kept in step with them. */
  datatype Psbt<I, O> = Psbt(inputs: seq<OutPoint>, inputMeta: seq<I>, outputs: seq<TxOut>, outputMeta: seq<O>)

  datatype WalletError = WalletError

  // ---------------------------------------------------------------------------
  // The OP_RETURN output
  // ---------------------------------------------------------------------------

  /** The first OP_RETURN output, or how many outputs there are. */
  function FirstOpReturn(outputs: seq<TxOut>): (i: nat)
    ensures i <= |outputs|
    ensures i < |outputs| ==> outputs[i].script.OpReturn?
    ensures forall j | 0 <= j < i :: outputs[j].script.Spendable?
  {
    if outputs == [] || outputs[0].script.OpReturn? then 0 else 1 + FirstOpReturn(outputs[1..])
  }

  method FindOpReturn(outputs: seq<TxOut>) returns (i: nat)
    ensures i == FirstOpReturn(outputs)
  {
    i := 0;
    while i < |outputs| && outputs[i].script.Spendable?
      invariant i <= |outputs| && FirstOpReturn(outputs) == i + FirstOpReturn(outputs[i..])
    {
      assert outputs[i..][1..] == outputs[i + 1..];
      i := i + 1;
    }
  }

  function MovedFirst<T>(xs: seq<T>, i: nat): seq<T>
    requires i < |xs|
  {
    [xs[i]] + xs[..i] + xs[i + 1..]
  }

  method MoveFirst<T>(xs: seq<T>, index: nat) returns (ys: seq<T>)
    requires index < |xs|
    ensures ys == MovedFirst(xs, index)
  {
    ys := [xs[index]];
    for i := 0 to |xs|
      invariant ys == [xs[index]] + if i <= index then xs[..i] else xs[..index] + xs[index + 1..i]
    {
      if i != index {
        ys := ys + [xs[i]];
      }
    }
  }

  function OpReturnFirst<I, O>(psbt: Psbt<I, O>): Psbt<I, O>
    requires |psbt.outputMeta| == |psbt.outputs|
  {
    var i := FirstOpReturn(psbt.outputs);
    if i == |psbt.outputs| then psbt
    else psbt.(outputs := MovedFirst(psbt.outputs, i), outputMeta := MovedFirst(psbt.outputMeta, i))
  }

  method MoveOpReturnFirst<I, O>(psbt: Psbt<I, O>) returns (r: Psbt<I, O>)
    requires |psbt.outputMeta| == |psbt.outputs|
    ensures r == OpReturnFirst(psbt)
  {
    var index := FindOpReturn(psbt.outputs);
    if index == |psbt.outputs| {
      return psbt;
    }
    if index == 0 {
      assert MovedFirst(psbt.outputs, 0) == psbt.outputs && MovedFirst(psbt.outputMeta, 0) == psbt.outputMeta;
      return psbt;
    }
    var outputs := MoveFirst(psbt.outputs, index);
    var outputMeta := MoveFirst(psbt.outputMeta, index);
    return psbt.(outputs := outputs, outputMeta := outputMeta);
  }

  lemma MovedFirstKeeps<T>(xs: seq<T>, i: nat)
    requires i < |xs|
    ensures multiset(MovedFirst(xs, i)) == multiset(xs)
  {
    assert xs == xs[..i] + ([xs[i]] + xs[i + 1..]);
  }

  lemma ZipLength<A, B>(a: seq<A>, b: seq<B>)
    requires |a| == |b|
    ensures |Zip(a, b)| == |a|
  {
  }

  lemma ZipMovedFirst<A, B>(a: seq<A>, b: seq<B>, i: nat)
    requires |a| == |b| && i < |a|
    ensures |MovedFirst(a, i)| == |MovedFirst(b, i)| == |a|
    ensures Zip(MovedFirst(a, i), MovedFirst(b, i)) == MovedFirst(Zip(a, b), i)
  {
    var moved, zipped := Zip(MovedFirst(a, i), MovedFirst(b, i)), MovedFirst(Zip(a, b), i);
    assert |moved| == |zipped|;
    forall k | 0 <= k < |moved| ensures moved[k] == zipped[k] {
    }
  }

  /** Moving the OP_RETURN output loses no output, and every output stays beside its own metadata. */
  lemma OpReturnFirstPermutes<I, O>(psbt: Psbt<I, O>)
    requires |psbt.outputMeta| == |psbt.outputs|
    ensures var r := OpReturnFirst(psbt);
            && r.inputs == psbt.inputs && r.inputMeta == psbt.inputMeta
            && |r.outputMeta| == |r.outputs|
            && multiset(r.outputs) == multiset(psbt.outputs) && multiset(r.outputMeta) == multiset(psbt.outputMeta)
            && multiset(Zip(r.outputs, r.outputMeta)) == multiset(Zip(psbt.outputs, psbt.outputMeta))
  {
    var i := FirstOpReturn(psbt.outputs);
    if i < |psbt.outputs| {
      hide MovedFirst, Zip, FirstOpReturn;
      MovedFirstKeeps(psbt.outputs, i);
      MovedFirstKeeps(psbt.outputMeta, i);
      ZipMovedFirst(psbt.outputs, psbt.outputMeta, i);
      ZipLength(psbt.outputs, psbt.outputMeta);
      MovedFirstKeeps(Zip(psbt.outputs, psbt.outputMeta), i);
    }
  }

  function WithOpReturn<I, O>(psbt: Psbt<I, O>, script: Script): Psbt<I, O> {
    var i := FirstOpReturn(psbt.outputs);
    if i == |psbt.outputs| then psbt
    else psbt.(outputs := psbt.outputs[i := TxOut(script, psbt.outputs[i].amount)])
  }

  method SubstituteFirstOpReturnScript<I, O>(psbt: Psbt<I, O>, script: Script) returns (r: Psbt<I, O>)
    ensures r == WithOpReturn(psbt, script)
  {
    var index := FindOpReturn(psbt.outputs);
    if index == |psbt.outputs| {
      return psbt;
    }
    var originalAmount := psbt.outputs[index].amount;
    return psbt.(outputs := psbt.outputs[index := TxOut(script, originalAmount)]);
  }

  /** Together they put the message at output 0 and leave every other output where the order had it. */
  lemma MessageFirst<I, O>(psbt: Psbt<I, O>, script: Script)
    requires script.OpReturn? && |psbt.outputMeta| == |psbt.outputs|
    requires FirstOpReturn(psbt.outputs) < |psbt.outputs|
    ensures var i, r := FirstOpReturn(psbt.outputs), OpReturnFirst(WithOpReturn(psbt, script));
            && r.inputs == psbt.inputs && r.inputMeta == psbt.inputMeta
            && r.outputs == [TxOut(script, psbt.outputs[i].amount)] + psbt.outputs[..i] + psbt.outputs[i + 1..]
            && r.outputMeta == MovedFirst(psbt.outputMeta, i)
  {
    var i := FirstOpReturn(psbt.outputs);
    var replaced := psbt.outputs[i := TxOut(script, psbt.outputs[i].amount)];
    FirstOpReturnIs(replaced, i);
    assert replaced[..i] == psbt.outputs[..i] && replaced[i + 1..] == psbt.outputs[i + 1..];
  }

  lemma FirstOpReturnIs(outputs: seq<TxOut>, i: nat)
    requires i < |outputs| && outputs[i].script.OpReturn?
    requires forall j | 0 <= j < i :: outputs[j].script.Spendable?
    ensures FirstOpReturn(outputs) == i
  {
    var k := FirstOpReturn(outputs);
    assert !(k < i) && !(i < k);
  }

  // ---------------------------------------------------------------------------
  // The inputs
  // ---------------------------------------------------------------------------

  /** The first place of `op`. */
  function FirstAt(keys: seq<OutPoint>, op: OutPoint): (i: nat)
    requires op in keys
    ensures i < |keys| && keys[i] == op
    ensures forall j | 0 <= j < i :: keys[j] != op
  {
    if keys[0] == op then 0 else 1 + FirstAt(keys[1..], op)
  }

  predicate AllIn(desired: seq<OutPoint>, keys: seq<OutPoint>) {
    forall k | 0 <= k < |desired| :: desired[k] in keys
  }

  function UsedBy(keys: seq<OutPoint>, desired: seq<OutPoint>): set<nat>
    requires AllIn(desired, keys)
  {
    set k | 0 <= k < |desired| :: FirstAt(keys, desired[k])
  }

  function Picked<T>(xs: seq<T>, keys: seq<OutPoint>, desired: seq<OutPoint>): seq<T>
    requires AllIn(desired, keys) && |xs| == |keys|
  {
    seq(|desired|, k requires 0 <= k < |desired| => xs[FirstAt(keys, desired[k])])
  }

  function Kept<T>(xs: seq<T>, used: set<nat>): seq<T> {
    if xs == [] then []
    else
      var n := |xs| - 1;
      Kept(xs[..n], used) + if n in used then [] else [xs[n]]
  }

  /** `xs`, one entry for each input of `keys`, in the new order: the desired inputs, then the others. */
  function Reordered<T>(xs: seq<T>, keys: seq<OutPoint>, desired: seq<OutPoint>): seq<T>
    requires AllIn(desired, keys) && |xs| == |keys|
  {
    Picked(xs, keys, desired) + Kept(xs, UsedBy(keys, desired))
  }

  predicate DistinctOutPoints(ops: seq<OutPoint>) {
    forall i, j | 0 <= i < j < |ops| :: ops[i] != ops[j]
  }

  method FindInput(keys: seq<OutPoint>, op: OutPoint) returns (i: nat)
    ensures if op in keys then i == FirstAt(keys, op) && i < |keys| else i == |keys|
  {
    i := 0;
    while i < |keys| && keys[i] != op
      invariant i <= |keys| && forall j | 0 <= j < i :: keys[j] != op
    {
      i := i + 1;
    }
  }

  lemma NothingPicked<T>(xs: seq<T>, keys: seq<OutPoint>, desired: seq<OutPoint>)
    requires |xs| == |keys|
    ensures AllIn(desired[..0], keys) && UsedBy(keys, desired[..0]) == {} && Picked(xs, keys, desired[..0]) == []
    ensures forall used :: Kept(xs[..0], used) == []
  {
  }

  lemma PickedPush<T>(xs: seq<T>, keys: seq<OutPoint>, desired: seq<OutPoint>, k: nat)
    requires |xs| == |keys| && k < |desired| && AllIn(desired[..k + 1], keys) && AllIn(desired[..k], keys)
    ensures desired[k] in keys
    ensures Picked(xs, keys, desired[..k + 1]) == Picked(xs, keys, desired[..k]) + [xs[FirstAt(keys, desired[k])]]
  {
    assert desired[..k + 1][k] == desired[k];
  }

  lemma KeptPush<T>(xs: seq<T>, used: set<nat>, i: nat)
    requires i < |xs|
    ensures Kept(xs[..i + 1], used) == if i in used then Kept(xs[..i], used) else Kept(xs[..i], used) + [xs[i]]
  {
    assert xs[..i + 1][..i] == xs[..i];
  }

  method ReorderPsbtInputs<I, O>(psbt: Psbt<I, O>, desired: seq<OutPoint>) returns (r: Result<Psbt<I, O>, WalletError>)
    ensures r.Ok?
      <==> |desired| <= |psbt.inputs| && |psbt.inputMeta| == |psbt.inputs| && AllIn(desired, psbt.inputs)
    ensures r.Ok? ==>
      r.value == psbt.(inputs := Reordered(psbt.inputs, psbt.inputs, desired),
                       inputMeta := Reordered(psbt.inputMeta, psbt.inputs, desired))
  {
    var txInputs := psbt.inputs;
    if |txInputs| < |desired| {
      return Err(WalletError);
    }
    if |psbt.inputMeta| != |txInputs| {
      return Err(WalletError);
    }
    hide Picked, Kept, UsedBy, FirstAt;
    NothingPicked(txInputs, txInputs, desired);
    NothingPicked(psbt.inputMeta, txInputs, desired);
    var used := new bool[|txInputs|](_ => false);
    var newInputs, newMeta := [], [];
    for k := 0 to |desired|
      invariant AllIn(desired[..k], txInputs)
      invariant forall i | 0 <= i < used.Length :: used[i] <==> i in UsedBy(txInputs, desired[..k])
      invariant newInputs == Picked(txInputs, txInputs, desired[..k])
      invariant newMeta == Picked(psbt.inputMeta, txInputs, desired[..k])
    {
      var index := FindInput(txInputs, desired[k]);
      if index == |txInputs| {
        assert desired[k] !in txInputs;
        return Err(WalletError);
      }
      UsedByPush(txInputs, desired, k);
      PickedPush(txInputs, txInputs, desired, k);
      PickedPush(psbt.inputMeta, txInputs, desired, k);
      used[index] := true;
      newInputs := newInputs + [txInputs[index]];
      newMeta := newMeta + [psbt.inputMeta[index]];
    }
    assert desired[..|desired|] == desired;
    newInputs, newMeta := AppendUnused(txInputs, psbt.inputMeta, used, newInputs, newMeta, UsedBy(txInputs, desired));
    return Ok(psbt.(inputs := newInputs, inputMeta := newMeta));
  }

  method AppendUnused<I>(
    txInputs: seq<OutPoint>, meta: seq<I>, used: array<bool>, inputs0: seq<OutPoint>, meta0: seq<I>,
    ghost all: set<nat>)
    returns (newInputs: seq<OutPoint>, newMeta: seq<I>)
    requires used.Length == |txInputs| == |meta|
    requires forall i | 0 <= i < used.Length :: used[i] <==> i in all
    ensures newInputs == inputs0 + Kept(txInputs, all) && newMeta == meta0 + Kept(meta, all)
  {
    newInputs, newMeta := inputs0, meta0;
    assert Kept(txInputs[..0], all) == [] && Kept(meta[..0], all) == [];
    hide Kept;
    for i := 0 to |txInputs|
      invariant newInputs == inputs0 + Kept(txInputs[..i], all) && newMeta == meta0 + Kept(meta[..i], all)
    {
      KeptPush(txInputs, all, i);
      KeptPush(meta, all, i);
      if used[i] {
        continue;
      }
      newInputs := newInputs + [txInputs[i]];
      newMeta := newMeta + [meta[i]];
    }
    assert txInputs[..|txInputs|] == txInputs && meta[..|meta|] == meta;
  }

  lemma UsedByPush(keys: seq<OutPoint>, desired: seq<OutPoint>, k: nat)
    requires k < |desired| && AllIn(desired[..k], keys) && desired[k] in keys
    ensures AllIn(desired[..k + 1], keys)
    ensures UsedBy(keys, desired[..k + 1]) == UsedBy(keys, desired[..k]) + {FirstAt(keys, desired[k])}
  {
    var a, b := desired[..k], desired[..k + 1];
    assert forall j | 0 <= j < k :: a[j] == b[j];
    assert b[k] == desired[k];
    forall i | i in UsedBy(keys, a) ensures i in UsedBy(keys, b) {
      var j :| 0 <= j < |a| && FirstAt(keys, a[j]) == i;
      assert FirstAt(keys, b[j]) == i;
    }
  }

  // ---------------------------------------------------------------------------
  // What the new order keeps
  // ---------------------------------------------------------------------------

  /** The desired inputs come first, in the order asked for. */
  lemma DesiredFirst(keys: seq<OutPoint>, desired: seq<OutPoint>)
    requires AllIn(desired, keys)
    ensures Reordered(keys, keys, desired)[..|desired|] == desired
  {
    assert Picked(keys, keys, desired) == desired;
  }

  lemma UnsnocSeq<T>(xs: seq<T>) returns (init: seq<T>, last: T)
    requires xs != []
    ensures xs == init + [last] && |init| + 1 == |xs| && init == xs[..|xs| - 1]
  {
    init, last := xs[..|xs| - 1], xs[|xs| - 1];
  }

  /** Some unused place holds `op`. */
  ghost predicate Unused(keys: seq<OutPoint>, used: set<nat>, op: OutPoint) {
    exists i :: 0 <= i < |keys| && i !in used && keys[i] == op
  }

  lemma UnusedLast(init: seq<OutPoint>, last: OutPoint, used: set<nat>, op: OutPoint)
    ensures Unused(init + [last], used, op) <==> Unused(init, used, op) || (|init| !in used && last == op)
  {
    var keys := init + [last];
    if Unused(init, used, op) {
      var i :| 0 <= i < |init| && i !in used && init[i] == op;
      assert keys[i] == op;
    }
    assert keys[|init|] == last;
  }

  lemma KeptLast<T>(init: seq<T>, last: T, used: set<nat>)
    ensures Kept(init + [last], used) == if |init| in used then Kept(init, used) else Kept(init, used) + [last]
  {
    assert (init + [last])[..|init|] == init;
  }

  lemma {:induction false} KeptMembers(keys: seq<OutPoint>, used: set<nat>, op: OutPoint)
    ensures op in Kept(keys, used) <==> Unused(keys, used, op)
    decreases |keys|
  {
    if keys != [] {
      hide Kept, Unused;
      var init, last := UnsnocSeq(keys);
      KeptMembers(init, used, op);
      KeptLast(init, last, used);
      UnusedLast(init, last, used, op);
    }
  }

  /** After them come exactly the inputs that were not asked for. */
  lemma OthersLast(keys: seq<OutPoint>, desired: seq<OutPoint>, op: OutPoint)
    requires AllIn(desired, keys) && DistinctOutPoints(keys)
    ensures op in Reordered(keys, keys, desired)[|desired|..] <==> op in keys && op !in desired
  {
    var used := UsedBy(keys, desired);
    assert Reordered(keys, keys, desired)[|desired|..] == Kept(keys, used);
    KeptMembers(keys, used, op);
  }

  function UnusedBefore(used: set<nat>, i: nat): nat {
    if i == 0 then 0 else UnusedBefore(used, i - 1) + if i - 1 in used then 0 else 1
  }

  lemma {:induction false} KeptLength<T>(xs: seq<T>, used: set<nat>)
    ensures |Kept(xs, used)| == UnusedBefore(used, |xs|)
    decreases |xs|
  {
    if xs != [] {
      KeptLength(xs[..|xs| - 1], used);
    }
  }

  lemma {:induction false} KeptAt<T>(xs: seq<T>, used: set<nat>, i: nat)
    requires i < |xs| && i !in used
    ensures UnusedBefore(used, i) < |Kept(xs, used)| && Kept(xs, used)[UnusedBefore(used, i)] == xs[i]
    decreases |xs|
  {
    var init, last := UnsnocSeq(xs);
    KeptLast(init, last, used);
    if i < |init| {
      KeptAt(init, used, i);
    } else {
      KeptLength(init, used);
    }
  }

  lemma {:induction false} UnusedGrows(used: set<nat>, i: nat, j: nat)
    requires i < j && i !in used
    ensures UnusedBefore(used, i) < UnusedBefore(used, j)
    decreases j
  {
    if i < j - 1 {
      UnusedGrows(used, i, j - 1);
    }
  }

  lemma NotAsked(keys: seq<OutPoint>, desired: seq<OutPoint>, i: nat)
    requires AllIn(desired, keys) && i < |keys| && keys[i] !in desired
    ensures i !in UsedBy(keys, desired)
  {
  }

  /** Two inputs that were not asked for keep their order, and so do the entries that go with them. */
  lemma OthersInOrder<T>(xs: seq<T>, keys: seq<OutPoint>, desired: seq<OutPoint>, i: nat, j: nat)
    returns (a: nat, b: nat)
    requires AllIn(desired, keys) && |xs| == |keys|
    requires i < j < |keys| && keys[i] !in desired && keys[j] !in desired
    ensures |desired| <= a < b < |Reordered(xs, keys, desired)|
    ensures Reordered(xs, keys, desired)[a] == xs[i] && Reordered(xs, keys, desired)[b] == xs[j]
  {
    hide Kept, UsedBy, AllIn;
    var used := UsedBy(keys, desired);
    NotAsked(keys, desired, i);
    NotAsked(keys, desired, j);
    KeptAt(xs, used, i);
    KeptAt(xs, used, j);
    UnusedGrows(used, i, j);
    a, b := |desired| + UnusedBefore(used, i), |desired| + UnusedBefore(used, j);
  }

  lemma MultisetLast<T>(xs: seq<T>, x: T)
    ensures multiset(xs + [x]) == multiset(xs) + multiset{x}
  {
  }

  /** The entry at `i`, if there is one. */
  function EntryAt<T>(xs: seq<T>, i: nat): multiset<T> {
    if i < |xs| then multiset{xs[i]} else multiset{}
  }

  lemma EntryAtLast<T>(init: seq<T>, last: T, i: nat)
    ensures EntryAt(init + [last], i) == if i == |init| then multiset{last} else EntryAt(init, i)
    ensures i == |init| ==> EntryAt(init, i) == multiset{}
  {
  }

  lemma {:induction false} KeptWithout<T>(xs: seq<T>, used: set<nat>, i: nat)
    requires i !in used
    ensures multiset(Kept(xs, used)) == multiset(Kept(xs, used + {i})) + EntryAt(xs, i)
    decreases |xs|
  {
    if xs != [] {
      hide Kept, EntryAt;
      var init, last := UnsnocSeq(xs);
      var less := used + {i};
      KeptWithout(init, used, i);
      KeptLast(init, last, used);
      KeptLast(init, last, less);
      MultisetLast(Kept(init, used), last);
      MultisetLast(Kept(init, less), last);
      EntryAtLast(init, last, i);
    }
  }

  lemma {:induction false} KeptAll<T>(xs: seq<T>)
    ensures Kept(xs, {}) == xs
    decreases |xs|
  {
    if xs != [] {
      KeptAll(xs[..|xs| - 1]);
    }
  }

  lemma NextPicked<T>(xs: seq<T>, keys: seq<OutPoint>, desired: seq<OutPoint>)
    requires AllIn(desired, keys) && |xs| == |keys| && DistinctOutPoints(desired) && desired != []
    ensures var n := |desired| - 1;
            var i := FirstAt(keys, desired[n]);
            && AllIn(desired[..n], keys) && DistinctOutPoints(desired[..n])
            && i !in UsedBy(keys, desired[..n])
            && UsedBy(keys, desired) == UsedBy(keys, desired[..n]) + {i}
            && Picked(xs, keys, desired) == Picked(xs, keys, desired[..n]) + [xs[i]]
  {
    var n := |desired| - 1;
    assert desired[..n + 1] == desired;
    UsedByPush(keys, desired, n);
  }

  lemma MultisetMove<T>(picked: seq<T>, x: T, kept: seq<T>, keptBefore: seq<T>)
    requires multiset(keptBefore) == multiset(kept) + multiset{x}
    ensures multiset(picked + [x] + kept) == multiset(picked + keptBefore)
  {
  }

  /** With distinct desired inputs nothing is lost and nothing doubled. */
  lemma {:induction false} ReorderPermutes<T>(xs: seq<T>, keys: seq<OutPoint>, desired: seq<OutPoint>)
    requires AllIn(desired, keys) && |xs| == |keys| && DistinctOutPoints(desired)
    ensures multiset(Reordered(xs, keys, desired)) == multiset(xs)
    decreases |desired|
  {
    if desired == [] {
      KeptAll(xs);
      assert UsedBy(keys, []) == {};
      assert Reordered(xs, keys, []) == xs;
    } else {
      hide UsedBy, Picked, Kept, DistinctOutPoints, FirstAt;
      var n := |desired| - 1;
      NextPicked(xs, keys, desired);
      ReorderPermutes(xs, keys, desired[..n]);
      var i, used := FirstAt(keys, desired[n]), UsedBy(keys, desired[..n]);
      KeptWithout(xs, used, i);
      MultisetMove(Picked(xs, keys, desired[..n]), xs[i], Kept(xs, used + {i}), Kept(xs, used));
    }
  }

  function Zip<A, B>(a: seq<A>, b: seq<B>): seq<(A, B)>
    requires |a| == |b|
  {
    seq(|a|, i requires 0 <= i < |a| => (a[i], b[i]))
  }

  lemma {:induction false} KeptZip<A, B>(a: seq<A>, b: seq<B>, used: set<nat>)
    requires |a| == |b|
    ensures |Kept(a, used)| == |Kept(b, used)| && Kept(Zip(a, b), used) == Zip(Kept(a, used), Kept(b, used))
    decreases |a|
  {
    if a != [] {
      var n := |a| - 1;
      KeptZip(a[..n], b[..n], used);
      assert Zip(a, b)[..n] == Zip(a[..n], b[..n]);
    }
  }

  /** Inputs and metadata move together: no input ends beside the metadata of another. */
  lemma MetadataFollows<I>(keys: seq<OutPoint>, meta: seq<I>, desired: seq<OutPoint>)
    requires AllIn(desired, keys) && |meta| == |keys| && DistinctOutPoints(desired)
    ensures |Reordered(keys, keys, desired)| == |Reordered(meta, keys, desired)|
    ensures multiset(Zip(Reordered(keys, keys, desired), Reordered(meta, keys, desired))) == multiset(Zip(keys, meta))
  {
    hide Kept, UsedBy, FirstAt, DistinctOutPoints;
    ReorderPermutes(Zip(keys, meta), keys, desired);
    KeptZip(keys, meta, UsedBy(keys, desired));
    assert Reordered(Zip(keys, meta), keys, desired)
        == Zip(Reordered(keys, keys, desired), Reordered(meta, keys, desired));
  }
}
