/**
 * Go's fixed-width integers and the strconv / fmt conversions the Go half of the
 * backend relies on: int64 wrap-around, uint64 conversion, strconv.Atoi,
 * strconv.ParseUint(s, 10, 64), the %d format, and len() of a string (UTF-8 bytes).
 */
module GoNumbers {
  import opened Wrappers

  const TwoTo63: int := 0x8000_0000_0000_0000
  const TwoTo64: int := 0x1_0000_0000_0000_0000
  const MaxInt64: int := TwoTo63 - 1
  const MinInt64: int := -TwoTo63
  const MaxUint64: int := TwoTo64 - 1

  predicate InInt64(x: int) {
    MinInt64 <= x <= MaxInt64
  }

  /** The value Go's int64 arithmetic leaves when the exact result is x (two's-complement wrap-around). */
  function WrapInt64(x: int): (r: int)
    ensures InInt64(r)
    ensures (r - x) % TwoTo64 == 0
    ensures InInt64(x) ==> r == x
  {
    (x + TwoTo63) % TwoTo64 - TwoTo63
  }

  /** Go's conversion uint64(v) of an int64 value. */
  function ToUint64(v: int): (r: nat)
    requires InInt64(v)
    ensures r <= MaxUint64
    ensures (r - v) % TwoTo64 == 0
    ensures v >= 0 ==> r == v
    ensures v < 0 ==> r > MaxInt64
  {
    if v >= 0 then v else v + TwoTo64
  }

  predicate IsDigit(c: char) {
    '0' <= c <= '9'
  }

  predicate AllDigits(s: string) {
    forall i :: 0 <= i < |s| ==> IsDigit(s[i])
  }

  function DigitValue(c: char): nat
    requires IsDigit(c)
  {
    c as int - '0' as int
  }

  /** The number a string of decimal digits denotes. */
  function DigitsValue(s: string): nat
    requires AllDigits(s)
    decreases |s|
  {
    if s == [] then 0 else 10 * DigitsValue(s[..|s| - 1]) + DigitValue(s[|s| - 1])
  }

  /** strconv.ParseUint(s, 10, 64): one or more decimal digits, no sign, at most 2^64 - 1. */
  function ParseUint(s: string): Option<nat>
  {
    if |s| > 0 && AllDigits(s) && DigitsValue(s) <= MaxUint64 then Some(DigitsValue(s)) else None
  }

  /** strconv.Atoi(s) with Go's 64-bit int: an optional sign, one or more decimal digits, the value in int64 range. */
  function Atoi(s: string): Option<int>
  {
    var negative := |s| > 0 && s[0] == '-';
    var digits := if |s| > 0 && (s[0] == '-' || s[0] == '+') then s[1..] else s;
    if |digits| == 0 || !AllDigits(digits) then None
    else
      var v: int := if negative then -(DigitsValue(digits) as int) else DigitsValue(digits);
      if InInt64(v) then Some(v) else None
  }

  function DigitChar(d: nat): (c: char)
    requires d < 10
    ensures IsDigit(c) && DigitValue(c) == d
  {
    ('0' as int + d) as char
  }

  /** The decimal text of a natural number, as fmt's %d writes it. */
  function NatToString(n: nat): string
    decreases n
  {
    if n < 10 then [DigitChar(n)] else NatToString(n / 10) + [DigitChar(n % 10)]
  }

  /** The decimal text of an integer, as fmt's %d writes it. */
  function IntToString(i: int): string
  {
    if i < 0 then "-" + NatToString(-i) else NatToString(i)
  }

  /** Formatting a natural number gives a non-empty digit string that denotes it. */
  lemma {:induction false} NatToStringDigits(n: nat)
    ensures |NatToString(n)| > 0
    ensures AllDigits(NatToString(n))
    ensures DigitsValue(NatToString(n)) == n
    decreases n
  {
    if n >= 10 {
      NatToStringDigits(n / 10);
      var p := NatToString(n / 10);
      var s := p + [DigitChar(n % 10)];
      assert s[..|s| - 1] == p;
      assert DigitsValue(s) == 10 * DigitsValue(p) + n % 10;
    }
  }

  /** ParseUint reads back every uint64 that %d writes. */
  lemma ParseUintReadsFormat(n: nat)
    requires n <= MaxUint64
    ensures ParseUint(NatToString(n)) == Some(n)
  {
    NatToStringDigits(n);
  }

  /** Atoi reads back every int64 that %d writes. */
  lemma AtoiReadsFormat(i: int)
    requires InInt64(i)
    ensures Atoi(IntToString(i)) == Some(i)
  {
    var s := IntToString(i);
    if i < 0 {
      NatToStringDigits(-i);
      assert s == "-" + NatToString(-i);
      assert s[0] == '-';
      assert s[1..] == NatToString(-i);
    } else {
      NatToStringDigits(i);
      assert s == NatToString(i);
      assert IsDigit(s[0]);
      assert s[0] != '-' && s[0] != '+';
    }
  }

  /** Formatted integers never contain a colon (the host:port separator). */
  lemma IntToStringHasNoColon(i: int)
    ensures ':' !in IntToString(i)
  {
    var n: nat := if i < 0 then -i else i;
    NatToStringDigits(n);
    var s := IntToString(i);
    forall k | 0 <= k < |s| ensures s[k] != ':' {
      if i < 0 && k > 0 {
        assert s[k] == NatToString(n)[k - 1];
      }
    }
  }

  /** Bytes taken by one character in UTF-8. */
  function CharUtf8Len(c: char): nat
  {
    if c as int < 0x80 then 1
    else if c as int < 0x800 then 2
    else if c as int < 0x1_0000 then 3
    else 4
  }

  /** Go's len(s): the number of bytes of the UTF-8 encoding of s. */
  function Utf8Len(s: string): (n: nat)
    ensures |s| <= n <= 4 * |s|
  {
    if s == [] then 0 else CharUtf8Len(s[0]) + Utf8Len(s[1..])
  }
}
