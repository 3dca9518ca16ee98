/**
  Tokens, the slot ranges that stand for runs of them, and the coalescing of adjacent ranges.

  A list of ranges denotes a sequence of tokens. `merge_ordered_ranges` and `push_slice` are two
  writings of one operation, and it is a normal form: the result depends on that sequence alone.
  */
module Tokens {
  import opened Prelude

  datatype CollectionKey = CollectionKey(height: nat, txIndex: nat)
  datatype Group = Group(collection: CollectionKey, base: H160)
  datatype Token = Token(group: Group, slot: nat)

  /** Slots `start` to `end`, both included, of one group. */
  datatype Slice = Slice(group: Group, start: nat, end: nat)

  predicate WfSlice(s: Slice) {
    s.start <= s.end <= U128_MAX
  }

  predicate WfSlices(xs: seq<Slice>) {
    forall i | 0 <= i < |xs| :: WfSlice(xs[i])
  }

  // ---------------------------------------------------------------------------
  // What a list of ranges denotes
  // ---------------------------------------------------------------------------

  function Run(s: Slice): seq<Token> {
    if s.start <= s.end then seq(s.end - s.start + 1, i requires 0 <= i => Token(s.group, s.start + i)) else []
  }

  function Flatten(xs: seq<Slice>): seq<Token> {
    if xs == [] then [] else Flatten(xs[..|xs| - 1]) + Run(xs[|xs| - 1])
  }

  predicate Covers(s: Slice, t: Token) {
    s.group == t.group && s.start <= t.slot <= s.end
  }

  lemma RunCovers(s: Slice, t: Token)
    ensures t in Run(s) <==> Covers(s, t)
  {
    if Covers(s, t) {
      assert Run(s)[t.slot - s.start] == t;
    }
  }

  lemma {:induction false} FlattenCovers(xs: seq<Slice>, t: Token)
    ensures t in Flatten(xs) <==> exists i :: 0 <= i < |xs| && Covers(xs[i], t)
  {
    if xs != [] {
      var n := |xs| - 1;
      FlattenCovers(xs[..n], t);
      RunCovers(xs[n], t);
      if i :| 0 <= i < n && Covers(xs[..n][i], t) {
        assert Covers(xs[i], t);
      }
      if i :| 0 <= i < |xs| && Covers(xs[i], t) {
        assert i < n ==> Covers(xs[..n][i], t);
      }
    }
  }

  lemma TokensAssoc(a: seq<Token>, b: seq<Token>, c: seq<Token>)
    ensures a + b + c == a + (b + c)
  {
  }

  lemma FlattenPush(xs: seq<Slice>, s: Slice)
    ensures Flatten(xs + [s]) == Flatten(xs) + Run(s)
  {
    assert (xs + [s])[..|xs|] == xs;
  }

  lemma SplitSlices(xs: seq<Slice>) returns (init: seq<Slice>, last: Slice)
    requires xs != []
    ensures xs == init + [last] && |init| + 1 == |xs|
  {
    init, last := xs[..|xs| - 1], xs[|xs| - 1];
  }

  lemma AppendLast(xs: seq<Slice>, init: seq<Slice>, last: Slice)
    ensures xs + (init + [last]) == xs + init + [last]
  {
  }

  lemma FlattenNothing(xs: seq<Slice>)
    ensures Flatten(xs + []) == Flatten(xs) + Flatten([])
  {
    assert xs + [] == xs;
  }

  lemma {:induction false} FlattenConcat(xs: seq<Slice>, ys: seq<Slice>)
    ensures Flatten(xs + ys) == Flatten(xs) + Flatten(ys)
    decreases |ys|
  {
    hide *;
    if ys == [] {
      FlattenNothing(xs);
    } else {
      var init, last := SplitSlices(ys);
      FlattenConcat(xs, init);
      AppendLast(xs, init, last);
      FlattenPush(xs + init, last);
      FlattenPush(init, last);
      TokensAssoc(Flatten(xs), Flatten(init), Run(last));
    }
  }

  // ---------------------------------------------------------------------------
  // Coalescing
  // ---------------------------------------------------------------------------

  predicate Joins(last: Slice, s: Slice) {
    last.group == s.group && last.end < U128_MAX && last.end + 1 == s.start
  }

  function Push(xs: seq<Slice>, s: Slice): seq<Slice> {
    if xs != [] && Joins(xs[|xs| - 1], s)
    then xs[..|xs| - 1] + [xs[|xs| - 1].(end := s.end)]
    else xs + [s]
  }

  function Coalesce(xs: seq<Slice>): seq<Slice> {
    if xs == [] then [] else Push(Coalesce(xs[..|xs| - 1]), xs[|xs| - 1])
  }

  /** The shortest range list for a token sequence: one range for each maximal run. */
  function Compress(ts: seq<Token>): seq<Slice> {
    if ts == [] then []
    else
      var t := ts[|ts| - 1];
      Push(Compress(ts[..|ts| - 1]), Slice(t.group, t.slot, t.slot))
  }

  predicate Separated(xs: seq<Slice>) {
    forall i | 0 <= i < |xs| - 1 :: !Joins(xs[i], xs[i + 1])
  }

  lemma RunJoin(a: Slice, b: Slice)
    requires WfSlice(a) && WfSlice(b) && Joins(a, b)
    ensures Run(a.(end := b.end)) == Run(a) + Run(b)
  {
  }

  lemma PushWf(xs: seq<Slice>, s: Slice)
    requires WfSlices(xs) && WfSlice(s)
    ensures WfSlices(Push(xs, s))
  {
  }

  lemma PushJoined(init: seq<Slice>, last: Slice, s: Slice)
    requires WfSlice(last) && WfSlice(s) && Joins(last, s)
    ensures Flatten(init + [last.(end := s.end)]) == Flatten(init + [last]) + Run(s)
  {
    RunJoin(last, s);
    FlattenPush(init, last);
    FlattenPush(init, last.(end := s.end));
    TokensAssoc(Flatten(init), Run(last), Run(s));
  }

  lemma PushFlatten(xs: seq<Slice>, s: Slice)
    requires WfSlices(xs) && WfSlice(s)
    ensures Flatten(Push(xs, s)) == Flatten(xs) + Run(s)
  {
    if xs != [] && Joins(xs[|xs| - 1], s) {
      var init, last := xs[..|xs| - 1], xs[|xs| - 1];
      assert xs == init + [last];
      PushJoined(init, last, s);
    } else {
      FlattenPush(xs, s);
    }
  }

  lemma PushSeparated(xs: seq<Slice>, s: Slice)
    requires Separated(xs)
    ensures Separated(Push(xs, s))
  {
    var r := Push(xs, s);
    forall i | 0 <= i < |r| - 1 ensures !Joins(r[i], r[i + 1]) {
      assert i + 1 < |xs| ==> !Joins(xs[i], xs[i + 1]);
    }
  }

  predicate TokensFit(ts: seq<Token>) {
    forall i | 0 <= i < |ts| :: ts[i].slot <= U128_MAX
  }

  lemma {:induction false} CompressSeparated(ts: seq<Token>)
    ensures Separated(Compress(ts))
  {
    if ts != [] {
      var t := ts[|ts| - 1];
      CompressSeparated(ts[..|ts| - 1]);
      PushSeparated(Compress(ts[..|ts| - 1]), Slice(t.group, t.slot, t.slot));
    }
  }

  lemma PushToken(xs: seq<Slice>, t: Token)
    requires WfSlices(xs) && t.slot <= U128_MAX
    ensures Flatten(Push(xs, Slice(t.group, t.slot, t.slot))) == Flatten(xs) + [t]
    ensures WfSlices(Push(xs, Slice(t.group, t.slot, t.slot)))
  {
    var s := Slice(t.group, t.slot, t.slot);
    assert Run(s) == [t];
    PushFlatten(xs, s);
    PushWf(xs, s);
  }

  lemma Unsnoc(ts: seq<Token>) returns (init: seq<Token>, t: Token)
    requires ts != []
    ensures ts == init + [t] && |init| < |ts|
    ensures TokensFit(ts) ==> TokensFit(init) && t.slot <= U128_MAX
  {
    init, t := ts[..|ts| - 1], ts[|ts| - 1];
  }

  lemma {:induction false} CompressKeepsTokens(ts: seq<Token>)
    requires TokensFit(ts)
    ensures Flatten(Compress(ts)) == ts && WfSlices(Compress(ts))
    decreases |ts|
  {
    if ts != [] {
      hide Flatten, Push, Compress, TokensFit;
      var init, t := Unsnoc(ts);
      CompressKeepsTokens(init);
      PushToken(Compress(init), t);
      CompressPush(init, t);
    }
  }

  /** Compressing loses nothing, and leaves no two neighbours that could be joined. */
  lemma CompressFlatten(ts: seq<Token>)
    requires TokensFit(ts)
    ensures Flatten(Compress(ts)) == ts
    ensures WfSlices(Compress(ts)) && Separated(Compress(ts))
  {
    CompressKeepsTokens(ts);
    CompressSeparated(ts);
  }

  lemma CompressPush(ts: seq<Token>, t: Token)
    ensures Compress(ts + [t]) == Push(Compress(ts), Slice(t.group, t.slot, t.slot))
  {
    assert (ts + [t])[..|ts|] == ts;
  }

  lemma RunFront(s: Slice)
    requires s.start < s.end
    ensures Run(s) == Run(s.(end := s.end - 1)) + [Token(s.group, s.end)]
  {
  }

  /** Pushing a run is pushing its tokens one at a time. */
  lemma {:induction false} PushRun(ts: seq<Token>, s: Slice)
    requires WfSlice(s)
    ensures Push(Compress(ts), s) == Compress(ts + Run(s))
    decreases s.end - s.start
  {
    var t := Token(s.group, s.end);
    if s.start == s.end {
      assert Run(s) == [t];
      CompressPush(ts, t);
    } else {
      var front := s.(end := s.end - 1);
      PushRun(ts, front);
      RunFront(s);
      TokensAssoc(ts, Run(front), [t]);
      CompressPush(ts + Run(front), t);
      PushTwice(Compress(ts), s);
    }
  }

  lemma PushTwice(xs: seq<Slice>, s: Slice)
    requires s.start < s.end <= U128_MAX
    ensures Push(Push(xs, s.(end := s.end - 1)), Slice(s.group, s.end, s.end)) == Push(xs, s)
  {
  }

  /** Coalescing is determined by the tokens a list denotes, not by how they were cut. */
  lemma {:induction false} CoalesceIsCompress(xs: seq<Slice>)
    requires WfSlices(xs)
    ensures Coalesce(xs) == Compress(Flatten(xs))
    ensures TokensFit(Flatten(xs))
  {
    if xs != [] {
      var init, s := xs[..|xs| - 1], xs[|xs| - 1];
      CoalesceIsCompress(init);
      PushRun(Flatten(init), s);
    }
  }

  /** Two lists of the same tokens in the same order coalesce to the same list. */
  lemma CoalesceCanonical(xs: seq<Slice>, ys: seq<Slice>)
    requires WfSlices(xs) && WfSlices(ys)
    ensures Coalesce(xs) == Coalesce(ys) <==> Flatten(xs) == Flatten(ys)
    ensures Flatten(Coalesce(xs)) == Flatten(xs)
    ensures WfSlices(Coalesce(xs)) && Separated(Coalesce(xs))
  {
    CoalesceIsCompress(xs);
    CoalesceIsCompress(ys);
    CompressFlatten(Flatten(xs));
    CompressFlatten(Flatten(ys));
  }

  lemma {:induction false} CoalesceFixed(xs: seq<Slice>)
    requires Separated(xs)
    ensures Coalesce(xs) == xs
  {
    if xs != [] {
      var n := |xs| - 1;
      forall i | 0 <= i < |xs[..n]| - 1 ensures !Joins(xs[..n][i], xs[..n][i + 1]) {
        assert !Joins(xs[i], xs[i + 1]);
      }
      CoalesceFixed(xs[..n]);
      assert n > 0 ==> !Joins(xs[n - 1], xs[n - 1 + 1]);
    }
  }

  /** The coalesced list is the only separated list of its tokens. */
  lemma CoalesceUnique(xs: seq<Slice>, ys: seq<Slice>)
    requires WfSlices(xs) && WfSlices(ys)
    ensures Separated(ys) && Flatten(ys) == Flatten(xs) <==> ys == Coalesce(xs)
  {
    CoalesceCanonical(xs, ys);
    if Separated(ys) {
      CoalesceFixed(ys);
    }
  }

  lemma {:induction false} CoalesceBounds(xs: seq<Slice>, limit: nat)
    requires forall s | s in xs :: s.end < limit
    ensures forall s | s in Coalesce(xs) :: s.end < limit
  {
    if xs != [] {
      var n := |xs| - 1;
      assert xs[n] in xs && forall s | s in xs[..n] :: s in xs;
      CoalesceBounds(xs[..n], limit);
    }
  }

  method MergeOrderedRanges(ranges: seq<Slice>) returns (out: seq<Slice>)
    ensures out == Coalesce(ranges)
  {
    out := [];
    for i := 0 to |ranges|
      invariant out == Coalesce(ranges[..i])
    {
      assert ranges[..i + 1][..i] == ranges[..i];
      var range := ranges[i];
      ghost var before := out;
      if |out| > 0 && Joins(out[|out| - 1], range) {
        out := out[|out| - 1 := out[|out| - 1].(end := range.end)];
        assert out == Push(before, range);
      } else {
        out := out + [range];
      }
    }
    assert ranges[..|ranges|] == ranges;
  }

  // ---------------------------------------------------------------------------
  // Groups of a range list, in order of first appearance
  // ---------------------------------------------------------------------------

  function AddGroup(groups: seq<Group>, g: Group): seq<Group> {
    if g in groups then groups else groups + [g]
  }

  function UniqueGroups(xs: seq<Slice>): seq<Group> {
    if xs == [] then [] else AddGroup(UniqueGroups(xs[..|xs| - 1]), xs[|xs| - 1].group)
  }

  lemma {:induction false} UniqueGroupsMembers(xs: seq<Slice>, g: Group)
    ensures g in UniqueGroups(xs) <==> exists i :: 0 <= i < |xs| && xs[i].group == g
  {
    if xs != [] {
      var n := |xs| - 1;
      UniqueGroupsMembers(xs[..n], g);
      if i :| 0 <= i < n && xs[..n][i].group == g {
        assert xs[i].group == g;
      }
      if i :| 0 <= i < |xs| && xs[i].group == g {
        assert i < n ==> xs[..n][i].group == g;
      }
    }
  }

  lemma PushGroups(xs: seq<Slice>, s: Slice)
    ensures UniqueGroups(Push(xs, s)) == AddGroup(UniqueGroups(xs), s.group)
  {
    if xs != [] && Joins(xs[|xs| - 1], s) {
      var n := |xs| - 1;
      UniqueGroupsMembers(xs, s.group);
      assert xs[n].group == s.group;
      var r := xs[..n] + [xs[n].(end := s.end)];
      assert r[..n] == xs[..n];
    } else {
      assert (xs + [s])[..|xs|] == xs;
    }
  }

  /** Coalescing changes no group and no group order, so both give the same utxo rows. */
  lemma {:induction false} CoalesceGroups(xs: seq<Slice>)
    ensures UniqueGroups(Coalesce(xs)) == UniqueGroups(xs)
  {
    if xs != [] {
      var n := |xs| - 1;
      CoalesceGroups(xs[..n]);
      PushGroups(Coalesce(xs[..n]), xs[n]);
    }
  }

  method UniqueGroupsFromRanges(ranges: seq<Slice>) returns (groups: seq<Group>)
    ensures groups == UniqueGroups(ranges)
  {
    groups := [];
    for i := 0 to |ranges|
      invariant groups == UniqueGroups(ranges[..i])
    {
      assert ranges[..i + 1][..i] == ranges[..i];
      if ranges[i].group in groups {
        continue;
      }
      groups := groups + [ranges[i].group];
    }
    assert ranges[..|ranges|] == ranges;
  }
}
