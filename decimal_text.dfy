/** Decimal text of the numbers the dashboard prints: PHP's conversion of a
    non-negative number with at most one decimal to a string, as in "50",
    "12.5" or "0". The number is given as a count of tenths. */
module DecimalText {

  predicate IsDigit(c: char)
  {
    '0' <= c <= '9'
  }

  predicate AllDigits(s: string)
  {
    forall i :: 0 <= i < |s| ==> IsDigit(s[i])
  }

  function Digit(d: nat): (c: char)
    requires d < 10
    ensures IsDigit(c)
  {
    ('0' as int + d) as char
  }

  function DigitValue(c: char): (d: nat)
    requires IsDigit(c)
    ensures d < 10 && Digit(d) == c
  {
    c as int - '0' as int
  }

  /** The decimal digits of `n`, most significant first, without leading zeros. */
  function NatToDecimal(n: nat): (s: string)
    ensures |s| >= 1 && AllDigits(s)
    ensures s[0] == '0' ==> n == 0
  {
    if n < 10 then [Digit(n)] else NatToDecimal(n / 10) + [Digit(n % 10)]
  }

  /** The number a string of decimal digits denotes. */
  function DecimalValue(s: string): nat
    requires AllDigits(s)
  {
    if s == [] then 0 else DecimalValue(s[..|s| - 1]) * 10 + DigitValue(s[|s| - 1])
  }

  /** Reading the digits back gives the number they were written from. */
  lemma {:induction false} DecimalRoundTrip(n: nat)
    ensures DecimalValue(NatToDecimal(n)) == n
  {
    var s := NatToDecimal(n);
    if n >= 10 {
      DecimalRoundTrip(n / 10);
      assert s[..|s| - 1] == NatToDecimal(n / 10);
    }
  }

  /** The text of `t` tenths: the whole part, then a point and the tenths digit
      only when that digit is not zero. */
  function TenthsToString(t: nat): (s: string)
    ensures |s| >= 1 && IsDigit(s[0])
    ensures '.' in s <==> t % 10 != 0
    ensures s[0] == '0' ==> t < 10
  {
    assert !IsDigit('.');
    if t % 10 == 0 then NatToDecimal(t / 10)
    else NatToDecimal(t / 10) + "." + [Digit(t % 10)]
  }

  /** Strings of the form `digits` or `digits.digit`. */
  predicate IsTenthsText(s: string)
  {
    (|s| >= 1 && AllDigits(s)) ||
    (|s| >= 3 && s[|s| - 2] == '.' && AllDigits(s[..|s| - 2]) && IsDigit(s[|s| - 1]))
  }

  /** The number of tenths a `digits` or `digits.digit` string denotes. */
  function ParseTenths(s: string): nat
    requires IsTenthsText(s)
  {
    if AllDigits(s) then DecimalValue(s) * 10
    else DecimalValue(s[..|s| - 2]) * 10 + DigitValue(s[|s| - 1])
  }

  /** The text of a number of tenths reads back as that number. */
  lemma TenthsRoundTrip(t: nat)
    ensures IsTenthsText(TenthsToString(t))
    ensures ParseTenths(TenthsToString(t)) == t
  {
    var whole := NatToDecimal(t / 10);
    DecimalRoundTrip(t / 10);
    if t % 10 != 0 {
      var s := whole + "." + [Digit(t % 10)];
      assert s[|s| - 2] == '.';
      assert !IsDigit(s[|s| - 2]);
      assert s[..|s| - 2] == whole;
    }
  }
}
