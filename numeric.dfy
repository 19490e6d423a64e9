/**
 * Numbers as PHP sees them in the parsers: `is_numeric` (abstracted as an
 * optional sign followed by digits with at most one '.'), the exact value of
 * such a string, the `(int)` cast of a value (truncation toward zero) and the
 * decimal text of an integer.
 */
module Numeric {
  import opened Wrappers
  import opened Text

  predicate AllDigits(s: string) { forall k :: 0 <= k < |s| ==> IsDigit(s[k]) }

  function DigitValue(c: char): nat
    requires IsDigit(c)
  {
    c as int - '0' as int
  }

  /** The value of a string of decimal digits ("" counts as 0) */
  function DigitsValue(s: string): nat
    requires AllDigits(s)
  {
    if s == [] then 0 else 10 * DigitsValue(s[..|s| - 1]) + DigitValue(s[|s| - 1])
  }

  function Pow10(n: nat): (p: nat)
    ensures p >= 1
  {
    if n == 0 then 1 else 10 * Pow10(n - 1)
  }

  /** Index of the first '.' in `s` */
  function FirstDot(s: string): (r: Option<nat>)
    ensures r.Some? ==> r.value < |s| && s[r.value] == '.'
    ensures r.Some? ==> forall k :: 0 <= k < r.value ==> s[k] != '.'
    ensures r.None? ==> '.' !in s
  {
    if s == [] then None
    else if s[0] == '.' then Some(0)
    else match FirstDot(s[1..])
      case None => None
      case Some(d) => Some(d + 1)
  }

  /** Digits with at most one '.', at least one digit */
  predicate IsUnsignedDecimal(s: string) {
    match FirstDot(s)
    case None => |s| >= 1 && AllDigits(s)
    case Some(d) => |s| >= 2 && AllDigits(s[..d]) && AllDigits(s[d + 1..])
  }

  /** `is_numeric`, as abstracted here: optional sign, then an unsigned decimal */
  predicate IsNumeric(s: string) {
    s != [] && (if s[0] == '-' || s[0] == '+' then IsUnsignedDecimal(s[1..]) else IsUnsignedDecimal(s))
  }

  function UnsignedValue(s: string): (v: real)
    requires IsUnsignedDecimal(s)
    ensures v >= 0.0
  {
    match FirstDot(s)
    case None => DigitsValue(s) as real
    case Some(d) =>
      var scale := Pow10(|s| - d - 1) as real;
      var frac := DigitsValue(s[d + 1..]) as real;
      QuotientNonNegative(frac, scale);
      DigitsValue(s[..d]) as real + frac / scale
  }

  lemma QuotientNonNegative(a: real, b: real)
    requires a >= 0.0 && b > 0.0
    ensures a / b >= 0.0
  {
  }

  /** The exact value `floatval` approximates for a numeric string */
  function NumericValue(s: string): real
    requires IsNumeric(s)
  {
    if s[0] == '-' then -UnsignedValue(s[1..])
    else if s[0] == '+' then UnsignedValue(s[1..])
    else UnsignedValue(s)
  }

  /** `(int)` / `intval` of a value: truncation toward zero */
  function Trunc(r: real): (n: int)
    ensures r >= 0.0 ==> 0.0 <= n as real <= r < n as real + 1.0
    ensures r < 0.0 ==> n as real - 1.0 < r <= n as real <= 0.0
  {
    if r >= 0.0 then r.Floor else -((-r).Floor)
  }

  /** The bounds of an `int` in 64-bit PHP */
  const PHP_INT_MAX: int := 0x7FFF_FFFF_FFFF_FFFF
  const PHP_INT_MIN: int := -PHP_INT_MAX - 1

  /** `intval` of an integer string: out-of-range values stop at the nearest bound */
  function Saturate(n: int): (r: int)
    ensures PHP_INT_MIN <= r <= PHP_INT_MAX
    ensures PHP_INT_MIN <= n <= PHP_INT_MAX ==> r == n
    ensures n > PHP_INT_MAX ==> r == PHP_INT_MAX
    ensures n < PHP_INT_MIN ==> r == PHP_INT_MIN
  {
    if n > PHP_INT_MAX then PHP_INT_MAX else if n < PHP_INT_MIN then PHP_INT_MIN else n
  }

  /** The `abs` of a value */
  function Abs(r: real): (a: real)
    ensures a >= 0.0 && (a == r || a == -r)
  {
    if r < 0.0 then -r else r
  }

  function DigitChar(d: nat): (c: char)
    requires d < 10
    ensures IsDigit(c) && DigitValue(c) == d
  {
    ('0' as int + d) as char
  }

  /** The decimal digits of a natural number, without leading zeros */
  function NatToString(n: nat): (s: string)
    ensures |s| >= 1 && AllDigits(s)
  {
    if n < 10 then [DigitChar(n)] else NatToString(n / 10) + [DigitChar(n % 10)]
  }

  /** How PHP renders an integer in a string */
  function IntToString(n: int): (s: string)
    ensures |s| >= 1
  {
    if n < 0 then "-" + NatToString(-n) else NatToString(n)
  }

  lemma {:induction false} NatToStringValue(n: nat)
    ensures DigitsValue(NatToString(n)) == n
    decreases n
  {
    var s := NatToString(n);
    if n >= 10 {
      NatToStringValue(n / 10);
      assert s[..|s| - 1] == NatToString(n / 10);
    }
  }

  lemma AllDigitsHasNoDot(s: string)
    requires AllDigits(s)
    ensures '.' !in s
  {
  }

  /** Reading back the text of an integer gives the integer: `is_numeric` holds and the value is exact */
  lemma IntToStringRoundTrip(n: int)
    ensures IsNumeric(IntToString(n))
    ensures NumericValue(IntToString(n)) == n as real
  {
    var s := IntToString(n);
    if n < 0 {
      var t := NatToString(-n);
      assert s[1..] == t;
      AllDigitsHasNoDot(t);
      NatToStringValue(-n);
    } else {
      AllDigitsHasNoDot(s);
      NatToStringValue(n);
    }
  }
}
