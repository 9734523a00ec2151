/**
 Base-10 text of integers, as `strconv.Itoa`, `strconv.FormatInt(x, 10)` and
 `strconv.FormatUint(x, 10)` produce it, together with an independent reading
 of decimal text so that the formatter can be proved right.
 */
module Decimal {

  predicate IsDigit(c: char) {
    '0' <= c <= '9'
  }

  predicate AllDigits(s: string) {
    forall i :: 0 <= i < |s| ==> IsDigit(s[i])
  }

  function DigitChar(d: nat): (c: char)
    requires d < 10
    ensures IsDigit(c) && c as int - '0' as int == d
  {
    ('0' as int + d) as char
  }

  function DigitValue(c: char): (d: nat)
    requires IsDigit(c)
    ensures d < 10
  {
    c as int - '0' as int
  }

  /** The number a string of digits denotes, read most significant digit first. */
  function DigitsValue(s: string): nat
    requires AllDigits(s)
  {
    if s == [] then 0 else DigitsValue(s[..|s| - 1]) * 10 + DigitValue(s[|s| - 1])
  }

  /** Digits without leading zeros: "0" is the only text that starts with '0'. */
  predicate IsCanonical(s: string) {
    && |s| >= 1
    && AllDigits(s)
    && (|s| > 1 ==> s[0] != '0')
  }

  /** Canonical digits, or a minus sign followed by the canonical digits of a positive number. */
  predicate IsDecimal(s: string) {
    || IsCanonical(s)
    || (|s| >= 2 && s[0] == '-' && IsCanonical(s[1..]) && s[1..] != "0")
  }

  function DecimalValue(s: string): int
    requires IsDecimal(s)
  {
    if s[0] == '-' then -(DigitsValue(s[1..]) as int) else DigitsValue(s)
  }

  /** `strconv.FormatUint(n, 10)`. */
  function FormatNat(n: nat): (r: string)
    ensures IsCanonical(r) && DigitsValue(r) == n
  {
    if n < 10 then
      var r := [DigitChar(n)];
      assert r[..0] == [];
      r
    else
      var front := FormatNat(n / 10);
      var r := front + [DigitChar(n % 10)];
      assert r[..|r| - 1] == front;
      assert front[0] != '0' by {
        if |front| == 1 {
          assert front[..0] == [];
        }
      }
      r
  }

  /** `strconv.FormatInt(x, 10)` and `strconv.Itoa(x)`. */
  function FormatInt(x: int): (r: string)
    ensures IsDecimal(r) && DecimalValue(r) == x
  {
    if x < 0 then
      var digits := FormatNat(-x);
      var r := "-" + digits;
      assert r[1..] == digits;
      r
    else
      FormatNat(x)
  }

  /** Canonical digits with a nonzero leading digit denote a number no smaller than that digit. */
  lemma {:induction false} LeadingDigitBound(s: string)
    requires |s| >= 1 && AllDigits(s)
    ensures DigitsValue(s) >= DigitValue(s[0])
  {
    if |s| > 1 {
      var front := s[..|s| - 1];
      assert front[0] == s[0];
      LeadingDigitBound(front);
    }
  }

  lemma DivModTen(a: nat, d: nat)
    requires d < 10
    ensures (a * 10 + d) / 10 == a && (a * 10 + d) % 10 == d
  {
  }

  /** Every canonical digit string is the text FormatNat gives for its value. */
  lemma {:induction false} FormatNatOfDigits(s: string)
    requires IsCanonical(s)
    ensures FormatNat(DigitsValue(s)) == s
  {
    if |s| > 1 {
      var front, last := s[..|s| - 1], s[|s| - 1];
      assert front[0] == s[0];
      LeadingDigitBound(front);
      FormatNatOfDigits(front);
      var a, d := DigitsValue(front), DigitValue(last);
      DivModTen(a, d);
      assert DigitChar(d) == last;
      assert DigitsValue(s) == a * 10 + d;
      assert FormatNat(a * 10 + d) == FormatNat(a) + [DigitChar(d)];
      assert s == front + [last];
    } else {
      assert s[..0] == [];
      assert DigitChar(DigitValue(s[0])) == s[0];
    }
  }

  /** Decimal text and integers correspond one to one through FormatInt. */
  lemma DecimalRoundTrip(s: string)
    requires IsDecimal(s)
    ensures FormatInt(DecimalValue(s)) == s
  {
    if s[0] == '-' {
      FormatNatOfDigits(s[1..]);
      assert DigitsValue(s[1..]) != 0 by {
        LeadingDigitBound(s[1..]);
        if |s[1..]| == 1 {
          assert s[1..][..0] == [];
        }
      }
      assert s == "-" + s[1..];
    } else {
      FormatNatOfDigits(s);
    }
  }
}
