/**
 * Decimal rendering of unsigned integers, as `std::to_string` produces it for
 * an unsigned argument: the shortest string of ASCII digits, without sign and
 * without leading zeros, and "0" for zero.  `ParseDec` is its inverse, used to
 * show that the rendering loses no information.
 */
module Decimal {
  import opened Wrappers
  import opened Ints

  predicate IsDigit(ch: char) {
    '0' <= ch <= '9'
  }

  predicate AllDigits(s: string) {
    forall i :: 0 <= i < |s| ==> IsDigit(s[i])
  }

  /** A decimal numeral as `std::to_string` writes one: digits only, no leading zero. */
  predicate IsCanonical(s: string) {
    |s| > 0 && AllDigits(s) && (s[0] == '0' ==> |s| == 1)
  }

  function DigitChar(d: nat): (ch: char)
    requires d < 10
    ensures IsDigit(ch) && DigitValue(ch) == d
  {
    ('0' as int + d) as char
  }

  function DigitValue(ch: char): (d: nat)
    requires IsDigit(ch)
    ensures d < 10
  {
    ch as int - '0' as int
  }

  /** The decimal numeral of `n`. */
  function Dec(n: nat): (s: string)
    ensures IsCanonical(s)
    ensures ':' !in s
    ensures n == 0 <==> s == "0"
    decreases n
  {
    if n < 10 then [DigitChar(n)] else Dec(n / 10) + [DigitChar(n % 10)]
  }

  /** `std::to_string` applied to a uint32_t. */
  function U32ToString(n: u32): (s: string)
    ensures IsCanonical(s) && ':' !in s
    ensures |s| <= 10
  {
    DecLength(n as nat);
    Dec(n as nat)
  }

  /** The value of a string of digits, most significant digit first. */
  function DigitsValue(s: string): (v: nat)
    requires AllDigits(s)
  {
    if s == [] then 0 else DigitsValue(s[..|s| - 1]) * 10 + DigitValue(s[|s| - 1])
  }

  /** Reads back a numeral written by `Dec`; anything else is rejected. */
  function ParseDec(s: string): Option<nat> {
    if IsCanonical(s) then Some(DigitsValue(s)) else None
  }

  /** Reads back a numeral written by `U32ToString`. */
  function ParseU32(s: string): Option<u32> {
    match ParseDec(s)
    case Some(v) => if v < 0x1_0000_0000 then Some(v as u32) else None
    case None => None
  }

  /** Numbers below 10^k have at most k digits. */
  lemma {:induction false} DecLength(n: nat)
    ensures n < 0x1_0000_0000 ==> |Dec(n)| <= 10
  {
    DecLengthBelow(n, 10, 10_000_000_000);
  }

  lemma {:induction false} DecLengthBelow(n: nat, k: nat, bound: nat)
    requires k >= 1 && bound == Pow10(k)
    ensures n < bound ==> |Dec(n)| <= k
    decreases k
  {
    if n < bound && n >= 10 {
      assert Pow10(1) == 10;
      DecLengthBelow(n / 10, k - 1, Pow10(k - 1));
    }
  }

  function Pow10(k: nat): (p: nat)
    ensures p >= 1
  {
    if k == 0 then 1 else 10 * Pow10(k - 1)
  }

  /** Reading the numeral of `n` gives back `n`. */
  lemma {:induction false} DecValue(n: nat)
    ensures DigitsValue(Dec(n)) == n
    decreases n
  {
    if n >= 10 {
      var s := Dec(n);
      assert s[..|s| - 1] == Dec(n / 10);
      DecValue(n / 10);
    }
  }

  /** A numeral whose first digit is not zero has a positive value. */
  lemma {:induction false} LeadingDigitPositive(s: string)
    requires |s| > 0 && AllDigits(s) && s[0] != '0'
    ensures DigitsValue(s) > 0
    decreases |s|
  {
    if |s| > 1 {
      LeadingDigitPositive(s[..|s| - 1]);
    }
  }

  /** Every canonical numeral is the numeral of its value. */
  lemma {:induction false} DigitsDec(s: string)
    requires IsCanonical(s)
    ensures Dec(DigitsValue(s)) == s
    decreases |s|
  {
    if |s| > 1 {
      var p := s[..|s| - 1];
      var d := DigitValue(s[|s| - 1]);
      LeadingDigitPositive(p);
      DigitsDec(p);
      var v := DigitsValue(s);
      assert v == DigitsValue(p) * 10 + d;
      assert v / 10 == DigitsValue(p) && v % 10 == d;
      assert DigitChar(d) == s[|s| - 1];
      assert s == p + [s[|s| - 1]];
    } else {
      assert DigitChar(DigitValue(s[0])) == s[0];
    }
  }

  /** `ParseDec` is exactly the inverse of `Dec`. */
  lemma DecParse(s: string, n: nat)
    ensures ParseDec(s) == Some(n) <==> s == Dec(n)
  {
    if s == Dec(n) {
      DecValue(n);
    }
    if ParseDec(s) == Some(n) {
      DigitsDec(s);
    }
  }

  /** `ParseU32` is exactly the inverse of `U32ToString`. */
  lemma U32Parse(s: string, n: u32)
    ensures ParseU32(s) == Some(n) <==> s == U32ToString(n)
  {
    DecParse(s, n as nat);
    if ParseU32(s) == Some(n) {
      assert ParseDec(s) == Some(n as nat);
    }
  }
}
