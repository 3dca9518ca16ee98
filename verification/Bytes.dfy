/** Small facts about byte strings and about lists read off their front. */
module Bytes {
  import opened Prelude

  lemma Regroup(a: seq<byte>, b: seq<byte>, c: seq<byte>, d: seq<byte>)
    ensures (a + b + c) + d == a + (b + (c + d))
  {
  }

  /** Reading past a leading tag. */
  lemma AfterTag(tag: byte, a: seq<byte>, rest: seq<byte>)
    ensures ([tag] + a + rest)[0] == tag && ([tag] + a + rest)[1..] == a + rest
  {
  }

  lemma Assoc(a: seq<byte>, b: seq<byte>, c: seq<byte>)
    ensures (a + b) + c == a + (b + c)
  {
  }

  lemma Reassoc(a: seq<byte>, b: seq<byte>, c: seq<byte>, d: seq<byte>)
    ensures a + b + c + d == a + (b + c + d)
  {
  }

  /** A list read so far, put in front of what the rest of the bytes decode to. */
  function After<T>(acc: seq<T>, r: Result<(seq<T>, seq<byte>), Brc721Error>)
    : Result<(seq<T>, seq<byte>), Brc721Error>
  {
    match r
    case Ok((xs, rest)) => Ok((acc + xs, rest))
    case Err(e) => Err(e)
  }

  lemma AfterCons<T>(acc: seq<T>, x: T, r: Result<(seq<T>, seq<byte>), Brc721Error>)
    requires r.Ok?
    ensures After(acc, Ok(([x] + r.value.0, r.value.1))) == After(acc + [x], r)
  {
    assert acc + ([x] + r.value.0) == acc + [x] + r.value.0;
  }

  lemma AfterNothing<T>(r: Result<(seq<T>, seq<byte>), Brc721Error>)
    ensures After([], r) == r
  {
    if r.Ok? {
      assert [] + r.value.0 == r.value.0;
    }
  }
}
