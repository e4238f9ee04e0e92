/**
 * Decimal integers as text, with Python's meaning: `int(text)` on text already
 * stripped of surrounding whitespace, and `str(n)` / an f-string field `{n}`.
 */
module Numbers {
  import opened Wrappers

  predicate IsDigit(c: char) {
    '0' <= c <= '9'
  }

  function DigitValue(c: char): nat
    requires IsDigit(c)
  {
    c as int - '0' as int
  }

  function DigitChar(d: nat): (c: char)
    requires d < 10
    ensures IsDigit(c) && DigitValue(c) == d
  {
    ('0' as int + d) as char
  }

  /**
   * The digit part `int()` accepts: digits, where a single underscore may sit
   * between two digits (so no leading, trailing or doubled underscore).
   */
  predicate WellFormedDigits(s: string) {
    |s| > 0 && DigitsOrUnderscores(s) &&
    forall k :: 0 <= k < |s| && s[k] == '_' ==> 0 < k < |s| - 1 && IsDigit(s[k - 1]) && IsDigit(s[k + 1])
  }

  predicate DigitsOrUnderscores(s: string) {
    forall k :: 0 <= k < |s| ==> IsDigit(s[k]) || s[k] == '_'
  }

  /** The value of a digit string, underscores skipped. */
  function DigitsValue(s: string): nat
    requires DigitsOrUnderscores(s)
  {
    if s == [] then 0
    else if s[|s| - 1] == '_' then DigitsValue(s[..|s| - 1])
    else 10 * DigitsValue(s[..|s| - 1]) + DigitValue(s[|s| - 1])
  }

  /**
   * Python's `int(text)` in base 10 for a `text` with no surrounding
   * whitespace: an optional sign and well-formed digits; anything else is the
   * `ValueError` case, here `None`.
   */
  function ParseInt(text: string): (r: Option<int>)
    ensures r.Some? <==>
      WellFormedDigits(text) ||
      (|text| > 0 && (text[0] == '+' || text[0] == '-') && WellFormedDigits(text[1..]))
  {
    if |text| > 0 && (text[0] == '+' || text[0] == '-') then
      var digits := text[1..];
      assert !WellFormedDigits(text) by { assert !IsDigit(text[0]); }
      if WellFormedDigits(digits) then
        var v: int := DigitsValue(digits);
        Some(if text[0] == '-' then -v else v)
      else None
    else if WellFormedDigits(text) then Some(DigitsValue(text))
    else None
  }

  /** `str(n)` for a natural number: its decimal digits, no leading zero. */
  function NatToString(n: nat): (s: string)
    ensures |s| > 0 && forall k :: 0 <= k < |s| ==> IsDigit(s[k])
    ensures |s| > 1 ==> s[0] != '0'
  {
    if n < 10 then [DigitChar(n)]
    else NatToString(n / 10) + [DigitChar(n % 10)]
  }

  /** `str(n)`: a minus sign for negative numbers, then the digits. */
  function IntToString(n: int): (s: string)
    ensures |s| > 0 && IsDigit(s[|s| - 1]) && (IsDigit(s[0]) || s[0] == '-')
  {
    if n < 0 then "-" + NatToString(-n) else NatToString(n)
  }

  lemma {:induction false} NatToStringValue(n: nat)
    ensures DigitsValue(NatToString(n)) == n
  {
    var s := NatToString(n);
    if n >= 10 {
      NatToStringValue(n / 10);
      assert s[..|s| - 1] == NatToString(n / 10);
    }
  }

  /** Reading back what `str` printed gives the same integer: `int(str(n)) == n`. */
  lemma IntToStringRoundTrip(n: int)
    ensures ParseInt(IntToString(n)) == Some(n)
  {
    var m: nat := if n < 0 then -n else n;
    NatToStringValue(m);
    if n < 0 {
      ParseNegative(NatToString(m));
    } else {
      ParseDigits(NatToString(m));
    }
  }

  /** Plain digits read as their value. */
  lemma ParseDigits(digits: string)
    requires |digits| > 0 && forall k :: 0 <= k < |digits| ==> IsDigit(digits[k])
    ensures ParseInt(digits) == Some(DigitsValue(digits))
  {
    assert WellFormedDigits(digits);
    assert IsDigit(digits[0]);
  }

  /** A minus sign before plain digits reads as the negated value. */
  lemma ParseNegative(digits: string)
    requires |digits| > 0 && forall k :: 0 <= k < |digits| ==> IsDigit(digits[k])
    ensures ParseInt("-" + digits) == Some(-(DigitsValue(digits) as int))
  {
    assert WellFormedDigits(digits);
    assert ("-" + digits)[1..] == digits;
  }
}
