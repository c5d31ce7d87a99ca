/**
  Base-10 rendering of the unsigned integer payload (`BigUint::to_string`):
  digits only, no sign, no leading zero except in "0".
*/
module Decimal {

  predicate IsAsciiDigit(c: char) {
    '0' <= c <= '9'
  }

  /** Rust's `s.chars().all(|ch| ch.is_ascii_digit())`: true of the empty string. */
  predicate AllAsciiDigits(s: string) {
    forall i :: 0 <= i < |s| ==> IsAsciiDigit(s[i])
  }

  /** Non-empty, digits only, and no leading zero unless the whole string is "0". */
  predicate IsCanonical(s: string) {
    |s| > 0 && AllAsciiDigits(s) && (s[0] == '0' ==> |s| == 1)
  }

  function DigitChar(d: nat): (c: char)
    requires d < 10
    ensures IsAsciiDigit(c)
  {
    ('0' as int + d) as char
  }

  function DigitValue(c: char): (d: nat)
    requires IsAsciiDigit(c)
    ensures d < 10 && DigitChar(d) == c
  {
    c as int - '0' as int
  }

  function DecimalDigits(n: nat): (s: string)
    ensures IsCanonical(s)
  {
    if n < 10 then [DigitChar(n)] else DecimalDigits(n / 10) + [DigitChar(n % 10)]
  }

  /** How a reader takes a digit string back to its number. */
  function ParseDecimal(s: string): (n: nat)
    requires AllAsciiDigits(s)
  {
    if s == [] then 0 else ParseDecimal(s[..|s| - 1]) * 10 + DigitValue(s[|s| - 1])
  }

  lemma {:induction false} ParseDecimalOfDigits(n: nat)
    ensures ParseDecimal(DecimalDigits(n)) == n
  {
    var s := DecimalDigits(n);
    if n >= 10 {
      var p := DecimalDigits(n / 10);
      assert s[..|s| - 1] == p;
      ParseDecimalOfDigits(n / 10);
    }
  }

  lemma {:induction false} ParseDecimalNoLeadingZero(s: string)
    requires |s| > 0 && AllAsciiDigits(s) && s[0] != '0'
    ensures ParseDecimal(s) >= 1
  {
    if |s| > 1 {
      ParseDecimalNoLeadingZero(s[..|s| - 1]);
    }
  }

  /** Every canonical digit string is the rendering of exactly one number. */
  lemma {:induction false} DigitsOfParseDecimal(s: string)
    requires IsCanonical(s)
    ensures DecimalDigits(ParseDecimal(s)) == s
  {
    if |s| > 1 {
      var p := s[..|s| - 1];
      var d := DigitValue(s[|s| - 1]);
      ParseDecimalNoLeadingZero(p);
      DigitsOfParseDecimal(p);
      var n := ParseDecimal(s);
      assert n == ParseDecimal(p) * 10 + d;
      assert n / 10 == ParseDecimal(p) && n % 10 == d;
      assert s == p + [s[|s| - 1]];
    }
  }

  /** Appending a digit to a positive number appends its character to the rendering. */
  lemma DigitsAppend(n: nat, d: nat)
    requires n > 0 && d < 10
    ensures DecimalDigits(n * 10 + d) == DecimalDigits(n) + [DigitChar(d)]
  {
    assert (n * 10 + d) / 10 == n && (n * 10 + d) % 10 == d;
  }

  /** `u64::MAX`, rendered as the test at src/translator.rs:124-127 expects. */
  lemma U64MaxDigits()
    ensures DecimalDigits(18446744073709551615) == "18446744073709551615"
  {
    DigitsAppend(1, 8);
    DigitsAppend(18, 4);
    DigitsAppend(184, 4);
    DigitsAppend(1844, 6);
    DigitsAppend(18446, 7);
    DigitsAppend(184467, 4);
    DigitsAppend(1844674, 4);
    DigitsAppend(18446744, 0);
    DigitsAppend(184467440, 7);
    DigitsAppend(1844674407, 3);
    DigitsAppend(18446744073, 7);
    DigitsAppend(184467440737, 0);
    DigitsAppend(1844674407370, 9);
    DigitsAppend(18446744073709, 5);
    DigitsAppend(184467440737095, 5);
    DigitsAppend(1844674407370955, 1);
    DigitsAppend(18446744073709551, 6);
    DigitsAppend(184467440737095516, 1);
    DigitsAppend(1844674407370955161, 5);
  }
}
