/**
 * Decimal text for Java integers: `Integer.valueOf(String)` and
 * `Long.valueOf(String)` (radix 10, range-checked), and the decimal
 * rendering Java's string concatenation gives an integer.
 */
module Decimal {
  import opened JavaLang

  const INT_MIN: int := -0x8000_0000
  const INT_MAX: int := 0x7fff_ffff
  const LONG_MIN: int := -0x8000_0000_0000_0000
  const LONG_MAX: int := 0x7fff_ffff_ffff_ffff

  predicate IsDigit(c: char) {
    '0' <= c <= '9'
  }

  predicate AllDigits(s: string) {
    forall i :: 0 <= i < |s| ==> IsDigit(s[i])
  }

  function DigitValue(c: char): nat
    requires IsDigit(c)
  {
    c as int - '0' as int
  }

  function DigitChar(d: nat): (c: char)
    requires d < 10
    ensures IsDigit(c) && DigitValue(c) == d
  {
    ('0' as int + d) as char
  }

  /** The number a string of decimal digits denotes, most significant digit first. */
  function DigitsValue(s: string): nat
    requires AllDigits(s)
  {
    if s == [] then 0 else DigitsValue(s[..|s| - 1]) * 10 + DigitValue(s[|s| - 1])
  }

  /**
   * `Integer.parseInt(s, 10)` / `Long.parseLong(s, 10)` over the range
   * [lo, hi]: an optional '+' or '-', then at least one digit, and the
   * value must lie in the range; anything else is a NumberFormatException.
   */
  function ParseSigned(s: string, lo: int, hi: int): (r: Option<int>)
    ensures r.Some? ==> lo <= r.value <= hi
    ensures s == [] || s == "+" || s == "-" ==> r == None
  {
    if s == [] then None
    else
      var negative := s[0] == '-';
      var digits := if s[0] == '-' || s[0] == '+' then s[1..] else s;
      if digits == [] || !AllDigits(digits) then None
      else
        var magnitude: int := DigitsValue(digits);
        var n := if negative then -magnitude else magnitude;
        if lo <= n <= hi then Some(n) else None
  }

  /** `Integer.valueOf(String)`. */
  function ParseInt(s: string): Result<int> {
    match ParseSigned(s, INT_MIN, INT_MAX)
    case Some(n) => Ok(n)
    case None => Err(NumberFormat(s))
  }

  /** `Long.valueOf(String)`. */
  function ParseLong(s: string): Result<int> {
    match ParseSigned(s, LONG_MIN, LONG_MAX)
    case Some(n) => Ok(n)
    case None => Err(NumberFormat(s))
  }

  /** The shortest decimal digits of a natural number. */
  function DigitsOf(n: nat): (s: string)
    ensures |s| >= 1 && AllDigits(s) && DigitsValue(s) == n
    ensures n >= 10 ==> s[0] != '0'
  {
    if n < 10 then [DigitChar(n)]
    else
      var prefix := DigitsOf(n / 10);
      var s := prefix + [DigitChar(n % 10)];
      assert s[..|s| - 1] == prefix;
      s
  }

  /** `"" + n` for an int or a long: a '-' for negatives, then the digits. */
  function ToDecimalString(n: int): (s: string)
    ensures |s| >= 1
  {
    if n < 0 then "-" + DigitsOf(-n) else DigitsOf(n)
  }

  /** Parsing the rendering of any number in range gives that number back. */
  lemma {:induction false} ParseSignedRoundTrip(n: int, lo: int, hi: int)
    requires lo <= n <= hi
    ensures ParseSigned(ToDecimalString(n), lo, hi) == Some(n)
  {
    var s := ToDecimalString(n);
    if n < 0 {
      assert s[0] == '-' && s[1..] == DigitsOf(-n);
    } else {
      assert IsDigit(s[0]);
    }
  }

  /** `Integer.valueOf(String.valueOf(n)) == n` for every int. */
  lemma IntRoundTrip(n: int)
    requires INT_MIN <= n <= INT_MAX
    ensures ParseInt(ToDecimalString(n)) == Ok(n)
  {
    ParseSignedRoundTrip(n, INT_MIN, INT_MAX);
  }

  /** `Long.valueOf(String.valueOf(n)) == n` for every long. */
  lemma LongRoundTrip(n: int)
    requires LONG_MIN <= n <= LONG_MAX
    ensures ParseLong(ToDecimalString(n)) == Ok(n)
  {
    ParseSignedRoundTrip(n, LONG_MIN, LONG_MAX);
  }

  /** One past the int range is rejected by Integer.valueOf but accepted by Long.valueOf. */
  lemma IntOverflowRejected()
    ensures ParseInt(ToDecimalString(INT_MAX + 1)).Err?
    ensures ParseLong(ToDecimalString(INT_MAX + 1)) == Ok(INT_MAX + 1)
  {
    var s := ToDecimalString(INT_MAX + 1);
    ParseSignedRoundTrip(INT_MAX + 1, LONG_MIN, LONG_MAX);
    assert IsDigit(s[0]);
  }
}
