/** Decimal numerals, as std::to_string and operator<< write them and operator>> reads them. */
module Decimals {
  import opened Wrappers

  function Digit(d: nat): char
    requires d < 10
  {
    "0123456789"[d]
  }

  /** std::to_string of a size_t. */
  function Decimal(n: nat): (s: string)
    ensures |s| > 0 && (|s| == 1 <==> n < 10)
    ensures forall k :: 0 <= k < |s| ==> s[k] != '.'
  {
    if n < 10 then [Digit(n)] else Decimal(n / 10) + [Digit(n % 10)]
  }

  lemma {:induction false} DecimalInjective(m: nat, n: nat)
    requires Decimal(m) == Decimal(n)
    ensures m == n
  {
    var a, b := Decimal(m), Decimal(n);
    assert a[|a| - 1] == Digit(m % 10) && b[|b| - 1] == Digit(n % 10);
    assert m % 10 == n % 10;
    if m >= 10 && n >= 10 {
      assert a[..|a| - 1] == Decimal(m / 10) && b[..|b| - 1] == Decimal(n / 10);
      DecimalInjective(m / 10, n / 10);
    }
  }

  function DigitValue(c: char): nat {
    if '0' <= c <= '9' then c as nat - '0' as nat else 0
  }

  /** The number that a string of digits denotes. */
  function NumberOf(s: string): nat {
    if s == "" then 0 else NumberOf(s[..|s| - 1]) * 10 + DigitValue(s[|s| - 1])
  }

  predicate AllDigits(s: string) {
    forall k :: 0 <= k < |s| ==> '0' <= s[k] <= '9'
  }

  lemma {:induction false} NumberOfDecimal(n: nat)
    ensures AllDigits(Decimal(n)) && NumberOf(Decimal(n)) == n
  {
    var s := Decimal(n);
    if n < 10 {
      assert s[..0] == "";
    } else {
      NumberOfDecimal(n / 10);
      assert s[..|s| - 1] == Decimal(n / 10);
    }
  }

  /** operator<< of a signed integer. */
  function Numeral(i: int): string {
    if i < 0 then "-" + Decimal(-i) else Decimal(i)
  }

  predicate IsSpace(c: char) {
    c == ' ' || c == '\t' || c == '\n' || c == '\r' || c as int == 11 || c as int == 12
  }

  function SkipSpace(s: string): string {
    if s != "" && IsSpace(s[0]) then SkipSpace(s[1..]) else s
  }

  /** The digits that s begins with. */
  function LeadingDigits(s: string): string {
    if s != "" && '0' <= s[0] <= '9' then [s[0]] + LeadingDigits(s[1..]) else ""
  }

  /** operator>> of a signed integer: None when it fails, for want of digits or out of range. */
  function ParseInt(s: string, lo: int, hi: int): Option<int> {
    var t := SkipSpace(s);
    var negative := t != "" && t[0] == '-';
    var digits := LeadingDigits(if t != "" && (t[0] == '-' || t[0] == '+') then t[1..] else t);
    var v: int := if negative then -(NumberOf(digits) as int) else NumberOf(digits);
    if digits == "" || v < lo || v > hi then None else Some(v)
  }

  lemma {:induction false} LeadingDigitsOfDigits(s: string)
    requires AllDigits(s)
    ensures LeadingDigits(s) == s
  {
    if s != "" {
      LeadingDigitsOfDigits(s[1..]);
    }
  }

  function InRangeOrNone(i: int, lo: int, hi: int): Option<int> {
    if lo <= i <= hi then Some(i) else None
  }

  lemma ParseDigits(d: string, lo: int, hi: int)
    requires AllDigits(d) && d != ""
    ensures ParseInt(d, lo, hi) == InRangeOrNone(NumberOf(d), lo, hi)
    ensures ParseInt("-" + d, lo, hi) == InRangeOrNone(-(NumberOf(d) as int), lo, hi)
  {
    hide NumberOf, LeadingDigits;
    LeadingDigitsOfDigits(d);
    assert '0' <= d[0] <= '9';
    assert SkipSpace(d) == d;
    assert ("-" + d)[0] == '-' && ("-" + d)[1..] == d;
    assert SkipSpace("-" + d) == "-" + d;
  }

  /** Reading undoes writing for every integer in range, and fails for every other. */
  lemma ParseUndoesNumeral(i: int, lo: int, hi: int)
    ensures ParseInt(Numeral(i), lo, hi) == InRangeOrNone(i, lo, hi)
  {
    hide Decimal, NumberOf, ParseInt;
    var n := if i < 0 then -i else i;
    NumberOfDecimal(n);
    ParseDigits(Decimal(n), lo, hi);
  }

  lemma NumeralsWrittenOut()
    ensures Numeral(0) == "0" && Numeral(-120) == "-120" && Numeral(128256) == "128256"
  {
    assert Decimal(12) == "12" && Decimal(120) == "120";
    assert Decimal(128) == "128" && Decimal(1282) == "1282" && Decimal(12825) == "12825";
  }
}
