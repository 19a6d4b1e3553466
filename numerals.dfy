/**
 * Decimal numerals as JavaScript writes and reads them: `String(n)` / template
 * interpolation of an integer, and `Number(s)` of a string of decimal digits.
 * The counter boxes print totals with them; the dataset-driven weekday selector
 * reads its day index back with them.
 */
module Numerals {

  predicate IsDigit(c: char) {
    '0' <= c <= '9'
  }

  predicate AllDigits(s: string) {
    forall i :: 0 <= i < |s| ==> IsDigit(s[i])
  }

  function DigitChar(d: int): (c: char)
    requires 0 <= d < 10
    ensures IsDigit(c) && c as int - '0' as int == d
  {
    ('0' as int + d) as char
  }

  /** The decimal digits of `n`, most significant first, without leading zeros. */
  function DigitsOf(n: nat): (s: string)
    ensures |s| > 0 && AllDigits(s)
    ensures n > 0 ==> s[0] != '0'
    decreases n
  {
    if n < 10 then [DigitChar(n)] else DigitsOf(n / 10) + [DigitChar(n % 10)]
  }

  /** `Number(s)` of a string of decimal digits. */
  function ValueOf(s: string): (n: nat)
    requires AllDigits(s)
    decreases |s|
  {
    if s == [] then 0 else ValueOf(s[..|s| - 1]) * 10 + (s[|s| - 1] as int - '0' as int)
  }

  /** Reading back the digits of a number gives the number. */
  lemma {:induction false} ValueOfDigitsOf(n: nat)
    ensures ValueOf(DigitsOf(n)) == n
    decreases n
  {
    if n >= 10 {
      var s := DigitsOf(n);
      ValueOfDigitsOf(n / 10);
      assert s[..|s| - 1] == DigitsOf(n / 10);
    }
  }

  /** `String(n)` of an integer: a minus sign before the digits of a negative number. */
  function NumberToString(n: int): (s: string)
    ensures |s| > 0
    ensures s[0] == '-' <==> n < 0
    ensures n >= 0 ==> AllDigits(s) && ValueOf(s) == n
    ensures n < 0 ==> AllDigits(s[1..]) && ValueOf(s[1..]) == -n
  {
    if n < 0 then
      ValueOfDigitsOf(-n);
      assert ("-" + DigitsOf(-n))[1..] == DigitsOf(-n);
      "-" + DigitsOf(-n)
    else
      ValueOfDigitsOf(n);
      DigitsOf(n)
  }
}
