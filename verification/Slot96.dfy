/**
  The 12-byte big-endian blobs in which the database keeps slots, and their order. SQLite compares
  blobs byte by byte; the slot query relies on that being the numeric order.
  */
module Slot96 {
  import opened Prelude

  const SLOT96_BLOB_LEN: nat := 12

  function BigEndian(n: nat, len: nat): (bs: seq<byte>)
    ensures |bs| == len
  {
    if len == 0 then [] else BigEndian(n / 256, len - 1) + [n % 256]
  }

  function Value(bs: seq<byte>): nat {
    if bs == [] then 0 else 256 * Value(bs[..|bs| - 1]) + bs[|bs| - 1]
  }

  function Pow256(n: nat): (p: nat)
    ensures p > 0
  {
    if n == 0 then 1 else 256 * Pow256(n - 1)
  }

  /** The low 12 of the 16 bytes of a `u128`. */
  function EncodeSlot96(slot: nat): (bs: seq<byte>)
    ensures |bs| == SLOT96_BLOB_LEN
  {
    BigEndian(slot, 16)[16 - SLOT96_BLOB_LEN..]
  }

  /** The blob right-aligned in a zeroed 16-byte buffer; any other length is an error. */
  function DecodeSlot96(bs: seq<byte>): Result<nat, Brc721Error> {
    if |bs| != SLOT96_BLOB_LEN then Err(StorageError)
    else Ok(Value(seq(16 - SLOT96_BLOB_LEN, i => 0) + bs))
  }

  /** SQLite's `<=` on blobs. */
  predicate BlobLe(a: seq<byte>, b: seq<byte>) {
    a == [] || (b != [] && (a[0] < b[0] || (a[0] == b[0] && BlobLe(a[1..], b[1..]))))
  }

  lemma Pow256At12()
    ensures Pow256(12) == TWO_96
  {
    assert Pow256(2) == 256 * Pow256(1) == 65536;
    assert Pow256(4) == 256 * (256 * Pow256(2));
    assert Pow256(6) == 256 * (256 * Pow256(4));
    assert Pow256(8) == 256 * (256 * Pow256(6));
    assert Pow256(10) == 256 * (256 * Pow256(8));
    assert Pow256(12) == 256 * (256 * Pow256(10));
  }

  lemma ValuePush(high: seq<byte>, low: byte)
    ensures Value(high + [low]) == 256 * Value(high) + low
  {
    assert (high + [low])[..|high|] == high;
  }

  lemma DivBelow(n: nat, p: nat)
    requires n < 256 * p
    ensures n / 256 < p
  {
  }

  lemma {:induction false} ValueOfBigEndian(n: nat, len: nat)
    requires n < Pow256(len)
    ensures Value(BigEndian(n, len)) == n
  {
    if len > 0 {
      ValuePush(BigEndian(n / 256, len - 1), n % 256);
      assert n < 256 * Pow256(len - 1);
      DivBelow(n, Pow256(len - 1));
      ValueOfBigEndian(n / 256, len - 1);
    }
  }

  lemma {:induction false} BigEndianLow(n: nat, len: nat, k: nat)
    requires k <= len
    ensures BigEndian(n, len)[len - k..] == BigEndian(n, k)
  {
    if k > 0 {
      BigEndianLow(n / 256, len - 1, k - 1);
      var high := BigEndian(n / 256, len - 1);
      assert (high + [n % 256])[len - k..] == high[len - 1 - (k - 1)..] + [n % 256];
    }
  }

  lemma {:induction false} ValueBound(bs: seq<byte>)
    ensures Value(bs) < Pow256(|bs|)
  {
    if bs != [] {
      ValueBound(bs[..|bs| - 1]);
    }
  }

  lemma ValueLast(bs: seq<byte>, n: nat)
    requires |bs| == n + 1
    ensures Value(bs) == 256 * Value(bs[..n]) + bs[n]
  {
  }

  lemma ScaleFront(front: nat, p: nat, mid: nat, low: nat)
    ensures 256 * (front * p + mid) + low == front * (256 * p) + (256 * mid + low)
  {
  }

  lemma MiddleBytes(bs: seq<byte>, n: nat)
    requires |bs| == n + 1 && n > 0
    ensures bs[..n][1..] == bs[1..][..n - 1] && bs[1..][n - 1] == bs[n] && bs[..n][0] == bs[0]
  {
  }

  lemma {:induction false} ValueFront(bs: seq<byte>)
    requires bs != []
    ensures Value(bs) == bs[0] * Pow256(|bs| - 1) + Value(bs[1..])
    decreases |bs|
  {
    var n := |bs| - 1;
    if n == 0 {
      assert bs[..0] == [] && bs[1..] == [];
    } else {
      hide Value;
      MiddleBytes(bs, n);
      ValueFront(bs[..n]);
      ValueLast(bs, n);
      ValueLast(bs[1..], n - 1);
      ScaleFront(bs[0], Pow256(n - 1), Value(bs[1..][..n - 1]), bs[n]);
    }
  }

  lemma {:induction false} ValueLeadingZeros(zeros: nat, bs: seq<byte>)
    ensures Value(seq(zeros, i => 0) + bs) == Value(bs)
  {
    var z: seq<byte> := seq(zeros, i => 0);
    if zeros == 0 {
      assert z + bs == bs;
    } else {
      ValueLeadingZeros(zeros - 1, bs);
      ValueFront(z + bs);
      assert (z + bs)[1..] == seq(zeros - 1, i => 0) + bs;
    }
  }

  lemma LeadingByteDecides(x: nat, low: nat, y: nat, low': nat, p: nat)
    requires low < p && low' < p
    ensures x * p + low <= y * p + low' <==> x < y || (x == y && low <= low')
  {
    if x < y {
      assert (x + 1) * p <= y * p;
    } else if y < x {
      assert (y + 1) * p <= x * p;
    }
  }

  /** On blobs of one length the byte order is the order of the numbers they spell. */
  lemma {:induction false} BlobOrderIsNumeric(a: seq<byte>, b: seq<byte>)
    requires |a| == |b|
    ensures BlobLe(a, b) <==> Value(a) <= Value(b)
  {
    if a != [] {
      BlobOrderIsNumeric(a[1..], b[1..]);
      ValueFront(a);
      ValueFront(b);
      ValueBound(a[1..]);
      ValueBound(b[1..]);
      LeadingByteDecides(a[0], Value(a[1..]), b[0], Value(b[1..]), Pow256(|a| - 1));
    }
  }

  /** A slot survives storage, and two stored slots compare as the numbers do. */
  lemma StoredSlot(slot: nat)
    requires slot < TWO_96
    ensures DecodeSlot96(EncodeSlot96(slot)) == Ok(slot)
    ensures Value(EncodeSlot96(slot)) == slot
  {
    Pow256At12();
    BigEndianLow(slot, 16, 12);
    ValueOfBigEndian(slot, 12);
    ValueLeadingZeros(4, EncodeSlot96(slot));
  }

  lemma StoredOrder(a: nat, b: nat)
    requires a < TWO_96 && b < TWO_96
    ensures BlobLe(EncodeSlot96(a), EncodeSlot96(b)) <==> a <= b
  {
    StoredSlot(a);
    StoredSlot(b);
    BlobOrderIsNumeric(EncodeSlot96(a), EncodeSlot96(b));
  }

  /** What reading back a stored `u128` gives in general: storage keeps 96 bits. */
  function Stored(slot: nat): nat {
    Value(EncodeSlot96(slot))
  }
}
