/**
 * Decimal text of unsigned integers as the command-line tool uses it:
 * `usize::to_string` names the seats ("0", "1", ...) and formats line
 * numbers, and `str::parse` for `usize` / `u64` reads counts, seeds and
 * player indices.
 */
module Decimal {
  import opened Wrappers

  /** `usize::MAX` on a 64-bit target. */
  const UsizeMax: nat := 0xFFFF_FFFF_FFFF_FFFF
  /** `u64::MAX`. */
  const U64Max: nat := 0xFFFF_FFFF_FFFF_FFFF

  predicate IsDigit(c: char)
  {
    '0' <= c <= '9'
  }

  predicate AllDigits(s: string)
  {
    forall i :: 0 <= i < |s| ==> IsDigit(s[i])
  }

  function DigitValue(c: char): nat
    requires IsDigit(c)
  {
    (c as int) - ('0' as int)
  }

  function DigitChar(d: nat): (c: char)
    requires d < 10
    ensures IsDigit(c) && DigitValue(c) == d
  {
    (('0' as int) + d) as char
  }

  /** The number that a string of decimal digits denotes, leading zeros allowed. */
  function DigitsValue(ds: string): nat
    requires AllDigits(ds)
  {
    if |ds| == 0 then 0 else DigitsValue(ds[..|ds| - 1]) * 10 + DigitValue(ds[|ds| - 1])
  }

  /**
   * `to_string` of an unsigned integer: its decimal digits, most significant
   * first, without leading zeros.
   */
  function ToDecimal(n: nat): (s: string)
    ensures |s| > 0 && AllDigits(s) && DigitsValue(s) == n
    ensures |s| > 1 ==> s[0] != '0'
  {
    if n < 10 then [DigitChar(n)]
    else
      var s := ToDecimal(n / 10) + [DigitChar(n % 10)];
      assert s[..|s| - 1] == ToDecimal(n / 10);
      s
  }

  /**
   * `str::parse` for an unsigned integer type whose largest value is `max`:
   * an optional `+`, then one or more ASCII digits denoting at most `max`.
   * The empty string, a lone sign, a `-`, any other character and overflow
   * are all errors.
   */
  function ParseUnsigned(s: string, max: nat): (r: Option<nat>)
    ensures r.Some? ==> r.value <= max
  {
    var digits := if |s| > 0 && s[0] == '+' then s[1..] else s;
    if |digits| == 0 || !AllDigits(digits) then None
    else if DigitsValue(digits) <= max then Some(DigitsValue(digits))
    else None
  }

  /** Parsing reads back what `to_string` wrote, with or without a `+`, and refuses overflow. */
  lemma ParseToDecimal(n: nat, max: nat)
    ensures ParseUnsigned(ToDecimal(n), max) == (if n <= max then Some(n) else None)
    ensures ParseUnsigned("+" + ToDecimal(n), max) == (if n <= max then Some(n) else None)
  {
    var s := ToDecimal(n);
    assert ("+" + s)[1..] == s;
  }

  /** A successful parse means a digit string, possibly after one `+`, of that value. */
  lemma ParseUnsignedSpec(s: string, max: nat, v: nat)
    requires ParseUnsigned(s, max) == Some(v)
    ensures exists digits :: |digits| > 0 && AllDigits(digits) && DigitsValue(digits) == v
                             && (s == digits || s == "+" + digits)
  {
    var digits := if |s| > 0 && s[0] == '+' then s[1..] else s;
    if |s| > 0 && s[0] == '+' {
      assert s == "+" + digits;
    }
  }

  /** A leading `-` is refused for unsigned types, even before zero. */
  lemma ParseRejectsMinus(s: string, max: nat)
    requires |s| > 0 && s[0] == '-'
    ensures ParseUnsigned(s, max) == None
  {
    assert !IsDigit(s[0]);
  }

  /** Leading zeros do not change the value. */
  lemma {:induction false} LeadingZero(ds: string)
    requires AllDigits(ds)
    ensures AllDigits("0" + ds) && DigitsValue("0" + ds) == DigitsValue(ds)
  {
    if |ds| > 0 {
      var z := "0" + ds;
      assert z[..|z| - 1] == "0" + ds[..|ds| - 1];
      LeadingZero(ds[..|ds| - 1]);
    }
  }

  /** A `0` in front of a number that does not start with a sign parses to the same result. */
  lemma ParseLeadingZero(ds: string, max: nat)
    requires |ds| > 0 && ds[0] != '+'
    ensures ParseUnsigned("0" + ds, max) == ParseUnsigned(ds, max)
  {
    var z := "0" + ds;
    if AllDigits(ds) {
      LeadingZero(ds);
    } else {
      var i :| 0 <= i < |ds| && !IsDigit(ds[i]);
      assert z[i + 1] == ds[i];
    }
  }

  /** Distinct numbers have distinct decimal names. */
  lemma ToDecimalInjective(a: nat, b: nat)
    requires ToDecimal(a) == ToDecimal(b)
    ensures a == b
  {
  }
}
