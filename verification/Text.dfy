/**
  The few string operations the range parsers rest on, as the Rust standard library defines them:
  `trim`, `split`, `split_once`, decimal printing, and `u128::from_str`.
  */
module Text {
  import opened Prelude

  // ---------------------------------------------------------------------------
  // Decimal numbers
  // ---------------------------------------------------------------------------

  predicate IsDigit(c: char) {
    '0' <= c <= '9'
  }

  predicate AllDigits(s: string) {
    forall i | 0 <= i < |s| :: IsDigit(s[i])
  }

  function DigitChar(d: nat): (c: char)
    requires d < 10
    ensures IsDigit(c) && DigitValue(c) == d
  {
    ('0' as int + d) as char
  }

  function DigitValue(c: char): nat
    requires IsDigit(c)
  {
    c as int - '0' as int
  }

  function Decimal(n: nat): string {
    if n < 10 then [DigitChar(n)] else Decimal(n / 10) + [DigitChar(n % 10)]
  }

  function Number(s: string): nat
    requires AllDigits(s)
  {
    if s == [] then 0 else 10 * Number(s[..|s| - 1]) + DigitValue(s[|s| - 1])
  }

  /** `u128::from_str`: an optional plus sign, then digits; leading zeros are allowed. */
  function ParseU128(s: string): Option<nat> {
    var digits := if s != [] && s[0] == '+' then s[1..] else s;
    if digits == [] || !AllDigits(digits) || Number(digits) > U128_MAX then None else Some(Number(digits))
  }

  lemma {:induction false} DecimalReadsBack(n: nat)
    ensures Decimal(n) != [] && AllDigits(Decimal(n)) && Number(Decimal(n)) == n
    decreases n
  {
    if n >= 10 {
      DecimalReadsBack(n / 10);
      var s, d := Decimal(n / 10), DigitChar(n % 10);
      assert (s + [d])[..|s|] == s;
    } else {
      assert Number([]) == 0;
      assert [DigitChar(n)][..0] == [];
    }
  }

  lemma ParseDecimal(n: nat)
    requires n <= U128_MAX
    ensures ParseU128(Decimal(n)) == Some(n)
  {
    DecimalReadsBack(n);
    assert IsDigit(Decimal(n)[0]);
  }

  lemma {:induction false} LeadingZero(s: string)
    requires AllDigits(s)
    ensures AllDigits("0" + s) && Number("0" + s) == Number(s)
    decreases |s|
  {
    var z := "0" + s;
    if s == [] {
      assert z[..0] == [];
    } else {
      var n := |s| - 1;
      assert z[..|z| - 1] == "0" + s[..n];
      LeadingZero(s[..n]);
    }
  }

  /** A plus sign and leading zeros change nothing; any other character refuses the number. */
  lemma AcceptsIff(s: string)
    ensures ParseU128(s).Some?
      <==> var digits := if s != [] && s[0] == '+' then s[1..] else s;
           digits != [] && AllDigits(digits) && Number(digits) <= U128_MAX
    ensures s != [] && s[0] != '+' ==> ParseU128("+" + s) == ParseU128(s)
    ensures s != [] && AllDigits(s) ==> ParseU128("0" + s) == ParseU128(s)
  {
    assert ("+" + s)[1..] == s;
    if s != [] && AllDigits(s) {
      LeadingZero(s);
      assert IsDigit(s[0]);
      assert ("0" + s)[0] == '0';
    }
  }

  // ---------------------------------------------------------------------------
  // Trimming
  // ---------------------------------------------------------------------------

  /** The Unicode property White_Space. */
  predicate IsSpace(c: char) {
    var n := c as int;
    9 <= n <= 13 || n == 32 || n == 0x85 || n == 0xA0 || n == 0x1680 || 0x2000 <= n <= 0x200A
    || n == 0x2028 || n == 0x2029 || n == 0x202F || n == 0x205F || n == 0x3000
  }

  function TrimStart(s: string): string {
    if s != [] && IsSpace(s[0]) then TrimStart(s[1..]) else s
  }

  function TrimEnd(s: string): string {
    if s != [] && IsSpace(s[|s| - 1]) then TrimEnd(s[..|s| - 1]) else s
  }

  function Trim(s: string): string {
    TrimEnd(TrimStart(s))
  }

  lemma TrimBare(s: string)
    requires s != [] && !IsSpace(s[0]) && !IsSpace(s[|s| - 1])
    ensures Trim(s) == s
  {
  }

  predicate Blank(s: string) {
    forall i | 0 <= i < |s| :: IsSpace(s[i])
  }

  lemma {:induction false} TrimStartDrops(pad: string, s: string)
    requires Blank(pad) && s != [] && !IsSpace(s[0])
    ensures TrimStart(pad + s) == s
    decreases |pad|
  {
    if pad == [] {
      assert pad + s == s;
    } else {
      assert (pad + s)[1..] == pad[1..] + s;
      TrimStartDrops(pad[1..], s);
    }
  }

  lemma {:induction false} TrimEndDrops(s: string, pad: string)
    requires Blank(pad) && s != [] && !IsSpace(s[|s| - 1])
    ensures TrimEnd(s + pad) == s
    decreases |pad|
  {
    if pad == [] {
      assert s + pad == s;
    } else {
      var n := |pad| - 1;
      assert (s + pad)[..|s + pad| - 1] == s + pad[..n];
      TrimEndDrops(s, pad[..n]);
    }
  }

  /** Trimming takes away the white space on both sides, and nothing else. */
  lemma TrimPadded(before: string, s: string, after: string)
    requires Blank(before) && Blank(after) && s != [] && !IsSpace(s[0]) && !IsSpace(s[|s| - 1])
    ensures Trim(before + s + after) == s
  {
    assert before + s + after == before + (s + after);
    TrimStartDrops(before, s + after);
    TrimEndDrops(s, after);
  }

  // ---------------------------------------------------------------------------
  // Splitting
  // ---------------------------------------------------------------------------

  function Split(s: string, sep: char): (parts: seq<string>)
    ensures parts != []
  {
    if s == [] then [[]]
    else
      var rest := Split(s[1..], sep);
      if s[0] == sep then [[]] + rest else [[s[0]] + rest[0]] + rest[1..]
  }

  function Join(parts: seq<string>, sep: char): string {
    if parts == [] then []
    else if |parts| == 1 then parts[0]
    else parts[0] + [sep] + Join(parts[1..], sep)
  }

  predicate Free(s: string, c: char) {
    forall i | 0 <= i < |s| :: s[i] != c
  }

  lemma {:induction false} SplitAlone(s: string, sep: char)
    requires Free(s, sep)
    ensures Split(s, sep) == [s]
    decreases |s|
  {
    if s != [] {
      SplitAlone(s[1..], sep);
      assert [s[0]] + s[1..] == s;
    }
  }

  lemma {:induction false} SplitFront(s: string, rest: string, sep: char)
    requires Free(s, sep)
    ensures Split(s + [sep] + rest, sep) == [s] + Split(rest, sep)
    decreases |s|
  {
    var whole := s + [sep] + rest;
    if s == [] {
      assert whole[1..] == rest;
    } else {
      SplitFront(s[1..], rest, sep);
      assert whole[1..] == s[1..] + [sep] + rest;
      assert [s[0]] + s[1..] == s;
    }
  }

  lemma {:induction false} SplitJoined(parts: seq<string>, sep: char)
    requires parts != [] && forall k | 0 <= k < |parts| :: Free(parts[k], sep)
    ensures Split(Join(parts, sep), sep) == parts
    decreases |parts|
  {
    if |parts| == 1 {
      SplitAlone(parts[0], sep);
    } else {
      SplitJoined(parts[1..], sep);
      SplitFront(parts[0], Join(parts[1..], sep), sep);
      assert parts == [parts[0]] + parts[1..];
    }
  }

  function SplitOnce(s: string, sep: string): Option<(string, string)> {
    if |s| < |sep| then None
    else if s[..|sep|] == sep then Some(([], s[|sep|..]))
    else if s == [] then None
    else match SplitOnce(s[1..], sep)
      case None => None
      case Some((a, b)) => Some(([s[0]] + a, b))
  }

  lemma {:induction false} SplitOnceAt(a: string, sep: string, b: string)
    requires sep != [] && Free(a, sep[0])
    ensures SplitOnce(a + sep + b, sep) == Some((a, b))
    decreases |a|
  {
    var s := a + sep + b;
    if a == [] {
      assert s[..|sep|] == sep && s[|sep|..] == b;
    } else {
      assert s[..|sep|][0] == a[0];
      assert s[1..] == a[1..] + sep + b;
      SplitOnceAt(a[1..], sep, b);
      assert [a[0]] + a[1..] == a;
    }
  }

  lemma {:induction false} SplitOnceNowhere(s: string, sep: string)
    requires sep != [] && Free(s, sep[0])
    ensures SplitOnce(s, sep) == None
    decreases |s|
  {
    if |s| >= |sep| {
      assert s[..|sep|][0] == s[0];
      SplitOnceNowhere(s[1..], sep);
    }
  }
}
