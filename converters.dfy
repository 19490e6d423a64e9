/**
 * The Brazilian-locale converters: dates "d/m/yyyy" to "yyyy-mm-dd", money
 * "1.234,56" to 1234.56, integers with thousands dots and percentages. Each
 * returns `None` where the PHP returns `null`. Amounts are exact (`real`).
 */
module Converters {
  import opened Wrappers
  import opened Text
  import opened Numeric

  // ----- dates ------------------------------------------------------------------

  /** `^\d{4}-\d{2}-\d{2}$`: the shape of an extended calendar date of ISO 8601 (no range check) */
  predicate IsIsoShape(s: string) {
    && |s| == 10
    && AllDigits(s[..4]) && s[4] == '-' && AllDigits(s[5..7]) && s[7] == '-' && AllDigits(s[8..])
  }

  /** `str_pad($d, 2, '0', STR_PAD_LEFT)` */
  function Pad2(d: string): (r: string)
    ensures |d| <= 2 ==> |r| == 2
    ensures |d| >= 2 ==> r == d
  {
    if |d| < 2 then seq(2 - |d|, _ => '0') + d else d
  }

  /** The day, month and year of `^(\d{1,2})\/(\d{1,2})\/(\d{4})$`, if `s` has that shape */
  function BrDateParts(s: string): (r: Option<(string, string, string)>)
    ensures r.Some? ==> var (d, m, y) := r.value;
      1 <= |d| <= 2 && 1 <= |m| <= 2 && |y| == 4 && AllDigits(d) && AllDigits(m) && AllDigits(y)
  {
    var p := Explode(s, '/');
    if |p| == 3 && 1 <= |p[0]| <= 2 && 1 <= |p[1]| <= 2 && |p[2]| == 4
       && AllDigits(p[0]) && AllDigits(p[1]) && AllDigits(p[2])
    then Some((p[0], p[1], p[2]))
    else None
  }

  /**
   * `converterData` of the text-report parser: "" and "0" give `None`; after
   * `trim`, an ISO-shaped date passes through, "d/m/yyyy" becomes
   * "yyyy-mm-dd" with day and month zero-padded, and anything else is `None`.
   */
  function ConvertDate(raw: string): (r: Option<string>)
    ensures Empty(raw) ==> r.None?
    ensures r.Some? ==> IsIsoShape(r.value)
  {
    if Empty(raw) then None else DateOfTrimmed(Trim(raw))
  }

  /** The two date shapes `converterData` accepts once its input is trimmed */
  function DateOfTrimmed(v: string): (r: Option<string>)
    ensures IsIsoShape(v) ==> r == Some(v)
    ensures r.Some? ==> IsIsoShape(r.value)
  {
    if IsIsoShape(v) then Some(v)
    else match BrDateParts(v)
      case None => None
      case Some((d, m, y)) =>
        var out := y + "-" + Pad2(m) + "-" + Pad2(d);
        assert out[..4] == y && out[5..7] == Pad2(m) && out[8..] == Pad2(d);
        Some(out)
  }

  lemma TrimUnchanged(s: string)
    requires s == [] || (!IsTrimChar(s[0]) && !IsTrimChar(s[|s| - 1]))
    ensures Trim(s) == s
  {
  }

  /** A date already in the ISO shape passes through unchanged */
  lemma ConvertDateIsoUnchanged(v: string)
    requires IsIsoShape(v)
    ensures ConvertDate(v) == Some(v)
  {
    assert !Empty(v) by { assert |v| == 10; }
    assert IsDigit(v[0]) by { assert v[..4][0] == v[0]; }
    assert IsDigit(v[9]) by { assert v[8..][1] == v[9]; }
    TrimUnchanged(v);
    assert Trim(v) == v;
    assert DateOfTrimmed(v) == Some(v);
  }

  /** Converting an already converted date changes nothing */
  lemma ConvertDateIdempotent(raw: string)
    requires ConvertDate(raw).Some?
    ensures ConvertDate(ConvertDate(raw).value) == ConvertDate(raw)
  {
    ConvertDateIsoUnchanged(ConvertDate(raw).value);
  }

  lemma {:induction false} ExplodeNoSep(a: string, sep: char)
    requires sep !in a
    ensures Explode(a, sep) == [a]
    decreases |a|
  {
    if a != [] {
      ExplodeNoSep(a[1..], sep);
      assert [a[0]] + a[1..] == a;
    }
  }

  lemma {:induction false} ExplodeCons(a: string, sep: char, b: string)
    requires sep !in a
    ensures Explode(a + [sep] + b, sep) == [a] + Explode(b, sep)
    decreases |a|
  {
    var s := a + [sep] + b;
    if a == [] {
      assert s[1..] == b;
    } else {
      assert s[0] == a[0] && s[1..] == a[1..] + [sep] + b;
      ExplodeCons(a[1..], sep, b);
      assert [a[0]] + a[1..] == a;
    }
  }

  /**
   * Day and month of one or two digits and a four-digit year are rearranged
   * and padded whatever their values: there is no range check, so
   * "13/13/2024" becomes "2024-13-13".
   */
  lemma ConvertDateBrazilian(d: string, m: string, y: string)
    requires 1 <= |d| <= 2 && 1 <= |m| <= 2 && |y| == 4
    requires AllDigits(d) && AllDigits(m) && AllDigits(y)
    ensures ConvertDate(d + "/" + m + "/" + y) == Some(y + "-" + Pad2(m) + "-" + Pad2(d))
  {
    var s := d + "/" + m + "/" + y;
    BrDateTrimmed(d, m, y);
    BrDateExplodes(d, m, y);
    assert BrDateParts(s) == Some((d, m, y));
    assert ConvertDate(s) == DateOfTrimmed(s);
  }

  /** A Brazilian date is not blank, has no blank ends and is not ISO-shaped */
  lemma BrDateTrimmed(d: string, m: string, y: string)
    requires 1 <= |d| <= 2 && 1 <= |m| <= 2 && |y| == 4
    requires AllDigits(d) && AllDigits(m) && AllDigits(y)
    ensures var s := d + "/" + m + "/" + y; !Empty(s) && Trim(s) == s && !IsIsoShape(s)
  {
    var s := d + "/" + m + "/" + y;
    BrDateChars(d, m, y);
    TrimUnchanged(s);
  }

  /** The characters of a Brazilian date that rule out blanks and the ISO shape */
  lemma BrDateChars(d: string, m: string, y: string)
    requires 1 <= |d| <= 2 && 1 <= |m| <= 2 && |y| == 4
    requires AllDigits(d) && AllDigits(m) && AllDigits(y)
    ensures var s := d + "/" + m + "/" + y;
      |s| >= 8 && IsDigit(s[0]) && IsDigit(s[|s| - 1]) && (|s| == 10 ==> IsDigit(s[4]))
  {
    var t := "/" + m + "/" + y;
    var s := d + t;
    assert d + "/" + m + "/" + y == s;
    assert s[0] == d[0];
    assert s[|s| - 1] == t[|t| - 1] == y[3];
    if |s| == 10 {
      assert |d| == 2 && |m| == 2;
      assert s[4] == t[2] == m[1];
    }
  }

  /** A Brazilian date splits at its two slashes */
  lemma BrDateExplodes(d: string, m: string, y: string)
    requires AllDigits(d) && AllDigits(m) && AllDigits(y)
    ensures Explode(d + "/" + m + "/" + y, '/') == [d, m, y]
  {
    AllDigitsHasNoSlash(d);
    AllDigitsHasNoSlash(m);
    AllDigitsHasNoSlash(y);
    assert d + "/" + m + "/" + y == d + ['/'] + (m + ['/'] + y);
    ExplodeCons(d, '/', m + ['/'] + y);
    ExplodeCons(m, '/', y);
    ExplodeNoSep(y, '/');
  }

  lemma AllDigitsHasNoSlash(s: string)
    requires AllDigits(s)
    ensures '/' !in s
  {
  }

  // ----- exact values of numeric strings ----------------------------------------------

  /** The value of `sign digits . digits`: the spec the numeric lemmas are stated against */
  function DecimalOf(neg: bool, x: string, y: string): real
    requires AllDigits(x) && AllDigits(y)
  {
    var v := DigitsValue(x) as real + DigitsValue(y) as real / Pow10(|y|) as real;
    if neg then -v else v
  }

  function SignOf(neg: bool): string { if neg then "-" else "" }

  /** `floatval` of an `is_numeric` string, `None` otherwise */
  function NumberOf(v: string): (r: Option<real>)
    ensures r.Some? <==> IsNumeric(v)
  {
    if IsNumeric(v) then Some(NumericValue(v)) else None
  }

  lemma FirstDotAt(x: string, y: string)
    requires '.' !in x
    ensures FirstDot(x + "." + y) == Some(|x|)
  {
    var t := x + "." + y;
    assert t[|x|] == '.';
    assert forall k :: 0 <= k < |x| ==> t[k] == x[k];
  }

  /** `x.y` with digit strings x and y is an unsigned decimal with the value of its digits */
  lemma UnsignedDecimalValue(x: string, y: string)
    requires AllDigits(x) && AllDigits(y) && |x| + |y| >= 1
    ensures IsUnsignedDecimal(x + "." + y)
    ensures UnsignedValue(x + "." + y) == DecimalOf(false, x, y)
  {
    var t := x + "." + y;
    AllDigitsHasNoDot(x);
    FirstDotAt(x, y);
    assert t[..|x|] == x;
    assert t[|x| + 1..] == y;
  }

  /** `[-]x.y` with digit strings x and y is numeric and has the value of its digits */
  lemma DecimalValue(neg: bool, x: string, y: string)
    requires AllDigits(x) && AllDigits(y) && |x| + |y| >= 1
    ensures IsNumeric(SignOf(neg) + x + "." + y)
    ensures NumericValue(SignOf(neg) + x + "." + y) == DecimalOf(neg, x, y)
  {
    if neg {
      NegativeDecimalValue(x, y);
    } else {
      PositiveDecimalValue(x, y);
      assert SignOf(neg) + x == x;
    }
  }

  lemma NegativeDecimalValue(x: string, y: string)
    requires AllDigits(x) && AllDigits(y) && |x| + |y| >= 1
    ensures IsNumeric("-" + x + "." + y) && NumericValue("-" + x + "." + y) == DecimalOf(true, x, y)
  {
    var t := x + "." + y;
    UnsignedDecimalValue(x, y);
    assert "-" + x + "." + y == "-" + t;
    NegativeValue(t);
  }

  lemma PositiveDecimalValue(x: string, y: string)
    requires AllDigits(x) && AllDigits(y) && |x| + |y| >= 1
    ensures IsNumeric(x + "." + y) && NumericValue(x + "." + y) == DecimalOf(false, x, y)
  {
    var t := x + "." + y;
    UnsignedDecimalValue(x, y);
    assert t[0] == '.' || t[0] == x[0];
    PlainValue(t);
  }

  lemma NegativeValue(t: string)
    requires IsUnsignedDecimal(t)
    ensures IsNumeric("-" + t) && NumericValue("-" + t) == -UnsignedValue(t)
  {
    var s := "-" + t;
    assert s[0] == '-' && s[1..] == t;
  }

  lemma PlainValue(t: string)
    requires IsUnsignedDecimal(t) && t != [] && t[0] != '-' && t[0] != '+'
    ensures IsNumeric(t) && NumericValue(t) == UnsignedValue(t)
  {
  }

  // ----- floatval ---------------------------------------------------------------------

  /** The leading decimal digits of `s` */
  function LeadingDigits(s: string): (d: string)
    ensures |d| <= |s| && d == s[..|d|] && AllDigits(d)
    ensures |d| == |s| || !IsDigit(s[|d|])
  {
    if s != [] && IsDigit(s[0]) then [s[0]] + LeadingDigits(s[1..]) else []
  }

  /**
   * `floatval` of a string of digits, dots and anything else: the longest
   * prefix `\d*(\.\d*)?` read as a decimal, so "" and "." are 0 and reading
   * stops at a second dot.
   */
  function FloatVal(s: string): (v: real)
    ensures v >= 0.0
  {
    var x := LeadingDigits(s);
    var rest := s[|x|..];
    var y := if rest != [] && rest[0] == '.' then LeadingDigits(rest[1..]) else "";
    QuotientNonNegative(DigitsValue(y) as real, Pow10(|y|) as real);
    DecimalOf(false, x, y)
  }

  lemma {:induction false} LeadingDigitsOf(x: string, t: string)
    requires AllDigits(x) && (t == [] || !IsDigit(t[0]))
    ensures LeadingDigits(x + t) == x
    decreases |x|
  {
    if x == [] {
      assert x + t == t;
    } else {
      assert (x + t)[1..] == x[1..] + t;
      LeadingDigitsOf(x[1..], t);
      assert [x[0]] + x[1..] == x;
    }
  }

  /** Digits, a dot and digits are read exactly; whatever follows a further dot is ignored */
  lemma FloatValDecimal(x: string, y: string, z: string)
    requires AllDigits(x) && AllDigits(y) && (z == [] || z[0] == '.')
    ensures FloatVal(x + "." + y + z) == DecimalOf(false, x, y)
  {
    var s := x + "." + y + z;
    assert s == x + ("." + y + z);
    LeadingDigitsOf(x, "." + y + z);
    assert s[|x|..] == "." + y + z;
    assert ("." + y + z)[1..] == y + z;
    LeadingDigitsOf(y, z);
  }

  /** A string of digits is read as its integer value */
  lemma FloatValInteger(x: string)
    requires AllDigits(x)
    ensures FloatVal(x) == DigitsValue(x) as real
  {
    LeadingDigitsOf(x, "");
    assert x + "" == x;
    assert x[|x|..] == "";
  }

  // ----- str_replace with one-character needles ---------------------------------------

  /** `str_replace('.', '', $s)` */
  function DeleteDots(s: string): string { ReplaceAll(s, ".", "") }

  predicate DigitsAndDots(s: string) { forall k :: 0 <= k < |s| ==> IsDigit(s[k]) || s[k] == '.' }

  /** Replacing a single character works piece by piece */
  lemma {:induction false} ReplaceCharConcat(x: string, y: string, c: char, repl: string)
    ensures ReplaceAll(x + y, [c], repl) == ReplaceAll(x, [c], repl) + ReplaceAll(y, [c], repl)
    decreases |x|
  {
    if x == [] {
      assert x + y == y;
    } else {
      var s := x + y;
      assert s[1..] == x[1..] + y && s[0] == x[0];
      ReplaceCharConcat(x[1..], y, c, repl);
      var tail := ReplaceAll(x[1..], [c], repl) + ReplaceAll(y, [c], repl);
      if x[0] == c {
        assert s[..1] == [c] && x[..1] == [c];
        assert ReplaceAll(s, [c], repl) == repl + tail;
        assert ReplaceAll(x, [c], repl) == repl + ReplaceAll(x[1..], [c], repl);
      } else {
        assert s[..1] != [c] && x[..1] != [c];
        assert ReplaceAll(s, [c], repl) == [x[0]] + tail;
        assert ReplaceAll(x, [c], repl) == [x[0]] + ReplaceAll(x[1..], [c], repl);
      }
    }
  }

  /** Replacing a character by one character keeps positions and every other character */
  lemma {:induction false} ReplaceCharPointwise(s: string, c: char, d: char)
    ensures var r := ReplaceAll(s, [c], [d]);
      |r| == |s| && forall k :: 0 <= k < |s| ==> r[k] == (if s[k] == c then d else s[k])
    decreases |s|
  {
    if s != [] {
      ReplaceCharPointwise(s[1..], c, d);
      if s[0] == c { assert s[..1] == [c]; } else { assert s[..1] != [c]; }
    }
  }

  /** Deleting a character keeps every other character that was there */
  lemma {:induction false} DeleteCharKeeps(s: string, c: char, e: char)
    requires e != c && e in s
    ensures e in ReplaceAll(s, [c], [])
    decreases |s|
  {
    if s[0] == c {
      assert s[..1] == [c];
      DeleteCharKeeps(s[1..], c, e);
    } else if s[0] != e {
      assert s[..1] != [c];
      DeleteCharKeeps(s[1..], c, e);
    } else {
      assert s[..1] != [c];
    }
  }

  /** Deleting the dots of digits and dots leaves digits, at least one if there was one */
  lemma DeleteDotsDigits(s: string)
    requires DigitsAndDots(s)
    ensures AllDigits(DeleteDots(s))
    ensures HasDigit(s) ==> |DeleteDots(s)| >= 1
  {
    ReplaceCharRemoves(s, '.', "");
    if HasDigit(s) {
      var k :| 0 <= k < |s| && IsDigit(s[k]);
      DeleteCharKeeps(s, '.', s[k]);
    }
  }

  lemma NoCharsTrim(s: string)
    requires forall k :: 0 <= k < |s| ==> IsNumChar(s[k]) || s[k] == '-'
    ensures Trim(s) == s
  {
    if s != [] {
      assert !IsTrimChar(s[0]) && !IsTrimChar(s[|s| - 1]);
    }
    TrimUnchanged(s);
  }

  lemma NoCharsNoMoney(s: string)
    requires forall k :: 0 <= k < |s| ==> IsNumChar(s[k]) || s[k] == '-'
    ensures ReplaceAll(s, "R$", "") == s
  {
    assert 'R' !in s;
    ReplaceAbsent(s, "R$", "");
  }

  lemma NoCharsNoSpace(s: string)
    requires forall k :: 0 <= k < |s| ==> IsNumChar(s[k]) || s[k] == '-'
    ensures ReplaceAll(s, " ", "") == s
  {
    assert ' ' !in s;
    ReplaceAbsent(s, " ", "");
  }

  // ----- money and integers ---------------------------------------------------------

  /**
   * The locale rule shared by the money converters: only when a comma is
   * present are all dots deleted (thousands separators) and the comma turned
   * into the decimal point.
   */
  function Localize(v: string): (r: string)
    ensures ',' !in r
  {
    if ',' in v then
      var nodots := ReplaceAll(v, ".", "");
      ReplaceCharRemoves(nodots, ',', ".");
      ReplaceAll(nodots, ",", ".")
    else v
  }

  /**
   * `converterDecimal` of the text-report parser: `None` for "" and "0";
   * otherwise trimmed, "R$" and then spaces deleted, localized, and read if numeric.
   */
  function ConvertDecimal(raw: string): (r: Option<real>)
    ensures Empty(raw) ==> r.None?
  {
    if Empty(raw) then None else NumberOf(Localize(StripMoney(Trim(raw))))
  }

  /** `str_replace(['R$', ' '], '', $v)`: "R$" deleted first, then every space */
  function StripMoney(v: string): (r: string)
    ensures forall k :: 0 <= k < |r| ==> r[k] in v
  {
    var w := ReplaceAll(v, "R$", "");
    assert forall k :: 0 <= k < |w| ==> w[k] in v;
    ReplaceAll(w, " ", "")
  }

  /** `converterValor` of the upload parser: as `ConvertDecimal`, but spaces go before "R$" */
  function ConvertValue(raw: string): (r: Option<real>)
    ensures Empty(raw) ==> r.None?
  {
    if Empty(raw) then None
    else NumberOf(Localize(ReplaceAll(ReplaceAll(Trim(raw), " ", ""), "R$", "")))
  }

  /** `converterInteiro` (the same text in both resources): spaces and every dot deleted, then
      `intval`, which reads the integer string that is left and saturates at the 64-bit bounds */
  function ConvertInteger(raw: string): (r: Option<int>)
    ensures Empty(raw) ==> r.None?
    ensures r.Some? ==> PHP_INT_MIN <= r.value <= PHP_INT_MAX
  {
    if Empty(raw) then None
    else
      var v := ReplaceAll(ReplaceAll(Trim(raw), " ", ""), ".", "");
      if IsNumeric(v) then Some(Saturate(Trunc(NumericValue(v)))) else None
  }

  /** `converterPercentual`: '%' and spaces deleted, a comma turned into '.', dots kept */
  function ConvertPercent(raw: string): (r: Option<real>)
    ensures Empty(raw) ==> r.None?
  {
    if Empty(raw) then None
    else
      var v := ReplaceAll(ReplaceAll(Trim(raw), "%", ""), " ", "");
      NumberOf(if ',' in v then ReplaceAll(v, ",", ".") else v)
  }

  /**
   * A Brazilian amount, optionally negative: the dots before the comma are
   * thousands separators and vanish, the comma is the decimal point, so
   * "-1.234,56" is -1234.56.
   */
  lemma ConvertDecimalBrazilian(neg: bool, a: string, b: string)
    requires DigitsAndDots(a) && AllDigits(b) && |DeleteDots(a)| + |b| >= 1
    ensures AllDigits(DeleteDots(a))
    ensures ConvertDecimal(SignOf(neg) + a + "," + b) == Some(DecimalOf(neg, DeleteDots(a), b))
  {
    var sg := SignOf(neg);
    var s := sg + a + "," + b;
    assert s[|sg| + |a|] == ',';
    assert !Empty(s);
    AmountChars(sg, a, ',', b);
    MoneyPassThrough(s);
    LocalizeBrazilian(sg, a, b);
    DeleteDotsDigits(a);
    DecimalValue(neg, DeleteDots(a), b);
  }

  /** A signed amount is made of number characters and '-' */
  lemma AmountChars(sg: string, a: string, sep: char, b: string)
    requires sg == "" || sg == "-"
    requires DigitsAndDots(a) && AllDigits(b) && IsNumChar(sep)
    ensures var s := sg + a + [sep] + b;
      (forall k :: 0 <= k < |s| ==> IsNumChar(s[k]) || s[k] == '-')
      && (sep == '.' ==> ',' !in s)
  {
    var s := sg + a + [sep] + b;
    forall k | 0 <= k < |s|
      ensures (IsNumChar(s[k]) || s[k] == '-') && (sep == '.' ==> s[k] != ',')
    {
      if k < |sg| {
        assert s[k] == sg[k];
      } else if k < |sg| + |a| {
        assert s[k] == a[k - |sg|];
      } else if k == |sg| + |a| {
      } else {
        assert s[k] == b[k - |sg| - |a| - 1];
      }
    }
  }

  /** Trimming and deleting "R$" and spaces leave a plain signed amount alone */
  lemma MoneyPassThrough(s: string)
    requires forall k :: 0 <= k < |s| ==> IsNumChar(s[k]) || s[k] == '-'
    requires !Empty(s)
    ensures ConvertDecimal(s) == NumberOf(Localize(s))
  {
    NoCharsTrim(s);
    NoCharsNoMoney(s);
    NoCharsNoSpace(s);
    assert StripMoney(Trim(s)) == s;
  }

  /** The locale rule on a signed amount with a decimal comma */
  lemma LocalizeBrazilian(sg: string, a: string, b: string)
    requires sg == "" || sg == "-"
    requires DigitsAndDots(a) && AllDigits(b)
    ensures Localize(sg + a + "," + b) == sg + DeleteDots(a) + "." + b
  {
    var s := sg + a + "," + b;
    assert s[|sg| + |a|] == ',';
    DeleteDotsAround(sg, a, b);
    DeleteDotsDigits(a);
    CommaToPoint(sg, DeleteDots(a), b);
  }

  lemma DeleteDotsAround(sg: string, a: string, b: string)
    requires sg == "" || sg == "-"
    requires AllDigits(b)
    ensures DeleteDots(sg + a + "," + b) == sg + DeleteDots(a) + "," + b
  {
    AllDigitsHasNoDot(b);
    ReplaceAbsent(sg, ".", "");
    ReplaceAbsent(b, ".", "");
    ReplaceAbsent(",", ".", "");
    ReplaceCharConcat(sg + a + ",", b, '.', "");
    ReplaceCharConcat(sg + a, ",", '.', "");
    ReplaceCharConcat(sg, a, '.', "");
  }

  lemma CommaToPoint(sg: string, x: string, y: string)
    requires sg == "" || sg == "-"
    requires AllDigits(x) && AllDigits(y)
    ensures ReplaceAll(sg + x + "," + y, ",", ".") == sg + x + "." + y
  {
    var t := sg + x + "," + y;
    var u := sg + x + "." + y;
    ReplaceCharPointwise(t, ',', '.');
    var r := ReplaceAll(t, ",", ".");
    assert |r| == |u|;
    forall k | 0 <= k < |u|
      ensures r[k] == u[k]
    {
      if k < |sg| {
        assert t[k] == sg[k] && u[k] == sg[k];
      } else if k < |sg| + |x| {
        assert t[k] == x[k - |sg|] && u[k] == x[k - |sg|];
      } else if k == |sg| + |x| {
      } else {
        assert t[k] == y[k - |sg| - |x| - 1] && u[k] == y[k - |sg| - |x| - 1];
      }
    }
  }

  /**
   * Without a comma the dot is the decimal point: "1.234" (one thousand two
   * hundred and thirty-four in the report's locale) is read as 1.234.
   */
  lemma ConvertDecimalDotIsDecimalPoint(neg: bool, a: string, b: string)
    requires AllDigits(a) && AllDigits(b) && |a| + |b| >= 1
    ensures ConvertDecimal(SignOf(neg) + a + "." + b) == Some(DecimalOf(neg, a, b))
  {
    var s := SignOf(neg) + a + "." + b;
    assert s[|SignOf(neg)| + |a|] == '.';
    assert !Empty(s);
    AmountChars(SignOf(neg), a, '.', b);
    MoneyPassThrough(s);
    assert ',' !in s;
    DecimalValue(neg, a, b);
  }

  /** Every dot of an integer is a thousands separator: "1.234.567" is 1234567 */
  lemma ConvertIntegerDropsDots(s: string)
    requires DigitsAndDots(s) && HasDigit(s) && !Empty(s)
    ensures AllDigits(DeleteDots(s))
    ensures ConvertInteger(s) == Some(Saturate(DigitsValue(DeleteDots(s))))
    ensures DigitsValue(DeleteDots(s)) <= PHP_INT_MAX ==> ConvertInteger(s) == Some(DigitsValue(DeleteDots(s)))
  {
    IntegerCleaned(s);
    DeleteDotsDigits(s);
    DigitsNumeric(DeleteDots(s));
  }

  /** Trimming and deleting spaces leave digits and dots alone, so only the dots go */
  lemma IntegerCleaned(s: string)
    requires DigitsAndDots(s)
    ensures ReplaceAll(ReplaceAll(Trim(s), " ", ""), ".", "") == DeleteDots(s)
  {
    assert forall k :: 0 <= k < |s| ==> IsNumChar(s[k]) || s[k] == '-';
    NoCharsTrim(s);
    NoCharsNoSpace(s);
  }

  /** A non-empty string of digits is numeric, with the value of its digits */
  lemma DigitsNumeric(v: string)
    requires AllDigits(v) && |v| >= 1
    ensures IsNumeric(v) && NumericValue(v) == DigitsValue(v) as real
  {
    AllDigitsHasNoDot(v);
    assert IsUnsignedDecimal(v);
    assert IsDigit(v[0]);
  }

  /** A string with two dots at different places is not numeric */
  lemma TwoDotsNotNumeric(w: string, i: nat, j: nat)
    requires i < j < |w| && w[i] == '.' && w[j] == '.'
    ensures !IsNumeric(w)
  {
    if w[0] == '-' || w[0] == '+' {
      var u := w[1..];
      assert u[i - 1] == '.' && u[j - 1] == '.';
      TwoDotsNotUnsigned(u, i - 1, j - 1);
    } else {
      TwoDotsNotUnsigned(w, i, j);
    }
  }

  lemma TwoDotsNotUnsigned(u: string, i: nat, j: nat)
    requires i < j < |u| && u[i] == '.' && u[j] == '.'
    ensures !IsUnsignedDecimal(u)
  {
    assert u[i] in u;
    var d := FirstDot(u).value;
    assert u[d + 1..][j - d - 1] == '.';
  }

  /**
   * The percentage converter keeps the dots when it turns the comma into a
   * point, so a percentage with both ("1.234,5%") is not numeric and gives `None`.
   */
  lemma ConvertPercentDotAndComma(s: string)
    requires forall k :: 0 <= k < |s| ==> IsNumChar(s[k]) || s[k] == '%'
    requires '.' in s && ',' in s
    ensures ConvertPercent(s) == None
  {
    var v := ReplaceAll(ReplaceAll(Trim(s), "%", ""), " ", "");
    PercentStripped(s);
    assert !Empty(s) && ',' in v;
    PercentTwoDots(v);
  }

  /** Deleting the final '%' of a text without another one */
  lemma PercentSignDropped(w: string)
    requires '%' !in w
    ensures ReplaceAll(w + "%", "%", "") == w
  {
    ReplaceCharConcat(w, "%", '%', "");
    if w != [] { ReplaceAbsent(w, "%", ""); }
    assert "%"[..1] == "%";
    assert ReplaceAll("%", "%", "") == [];
    assert w + [] == w;
  }

  /** Trimming and deleting '%' and spaces leave the number characters before a final '%' */
  lemma PercentSignStripped(w: string)
    requires w != [] && forall k :: 0 <= k < |w| ==> IsNumChar(w[k])
    ensures ReplaceAll(ReplaceAll(Trim(w + "%"), "%", ""), " ", "") == w
  {
    var s := w + "%";
    assert s[0] == w[0] && s[|s| - 1] == '%';
    TrimUnchanged(s);
    assert '%' !in w;
    PercentSignDropped(w);
    assert ' ' !in w;
    ReplaceAbsent(w, " ", "");
  }

  /** A Brazilian percentage "x,y%" is read as x.y: "12,5%" is 12.5 */
  lemma ConvertPercentValue(x: string, y: string)
    requires AllDigits(x) && AllDigits(y) && |x| + |y| >= 1
    ensures ConvertPercent(x + "," + y + "%") == Some(DecimalOf(false, x, y))
  {
    var w := x + "," + y;
    forall k | 0 <= k < |w|
      ensures IsNumChar(w[k])
    {
      if k < |x| { assert w[k] == x[k]; } else if k > |x| { assert w[k] == y[k - |x| - 1]; }
    }
    assert w[|x|] == ',';
    PercentSignStripped(w);
    assert !Empty(w + "%") by { assert |w + "%"| >= 2; }
    CommaToPoint("", x, y);
    assert "" + x == x;
    PositiveDecimalValue(x, y);
  }

  /** A whole percentage "x%" is read as the integer x: "12%" is 12 */
  lemma ConvertPercentWhole(x: string)
    requires AllDigits(x) && |x| >= 1
    ensures ConvertPercent(x + "%") == Some(DigitsValue(x) as real)
  {
    assert forall k :: 0 <= k < |x| ==> IsNumChar(x[k]);
    PercentSignStripped(x);
    assert !Empty(x + "%") by { assert |x + "%"| >= 2; }
    assert ',' !in x;
    DigitsNumeric(x);
  }

  /** Turning the comma of a text that also holds a dot into a point gives two points */
  lemma PercentTwoDots(v: string)
    requires '.' in v && ',' in v
    ensures !IsNumeric(ReplaceAll(v, ",", "."))
  {
    var p :| 0 <= p < |v| && v[p] == '.';
    var q :| 0 <= q < |v| && v[q] == ',';
    ReplaceCharPointwise(v, ',', '.');
    var w := ReplaceAll(v, ",", ".");
    if p < q { TwoDotsNotNumeric(w, p, q); } else { TwoDotsNotNumeric(w, q, p); }
  }

  /** Deleting '%' and spaces from number characters and '%' keeps its dots and commas */
  lemma PercentStripped(s: string)
    requires forall k :: 0 <= k < |s| ==> IsNumChar(s[k]) || s[k] == '%'
    requires '.' in s && ',' in s
    ensures var v := ReplaceAll(ReplaceAll(Trim(s), "%", ""), " ", ""); '.' in v && ',' in v
  {
    assert !IsTrimChar(s[0]) && !IsTrimChar(s[|s| - 1]);
    TrimUnchanged(s);
    var v0 := ReplaceAll(s, "%", "");
    PercentDeleted(s);
    ReplaceAbsent(v0, " ", "");
  }

  lemma PercentDeleted(s: string)
    requires forall k :: 0 <= k < |s| ==> IsNumChar(s[k]) || s[k] == '%'
    requires '.' in s && ',' in s
    ensures var v0 := ReplaceAll(s, "%", ""); '.' in v0 && ',' in v0 && ' ' !in v0
  {
    var v0 := ReplaceAll(s, "%", "");
    DeleteCharKeeps(s, '%', '.');
    DeleteCharKeeps(s, '%', ',');
    assert forall k :: 0 <= k < |v0| ==> v0[k] in s;
  }

  /** With no space in the input the two money converters agree */
  lemma ConvertValueAgreesWithoutSpaces(raw: string)
    requires ' ' !in raw
    ensures ConvertValue(raw) == ConvertDecimal(raw)
  {
    if !Empty(raw) {
      var v := Trim(raw);
      assert ' ' !in v;
      ReplaceAbsent(v, " ", "");
      var w := ReplaceAll(v, "R$", "");
      assert ' ' !in w;
      ReplaceAbsent(w, " ", "");
    }
  }

  /**
   * The two money converters delete "R$" and spaces in opposite orders, so a
   * currency sign split by a space is cleaned by one and not by the other.
   */
  lemma ConvertValueOrderMatters()
    ensures ConvertDecimal("R $5") == None
    ensures ConvertValue("R $5") == Some(5.0)
  {
    SplitSignDecimal();
    SplitSignValue();
  }

  // The steps below are separate lemmas so that each proof obligation stays small:
  // one body holding all of them exceeds the verifier's resource limit.

  lemma SplitSignDecimal()
    ensures ConvertDecimal("R $5") == None
  {
    TrimUnchanged("R $5");
    MoneySignKept();
    SpaceDropped();
    SignNotNumeric();
    SplitSignNotNumeric();
  }

  lemma SignNotNumeric()
    ensures NumberOf(Localize("R$5")) == None
  {
    assert Localize("R$5") == "R$5";
    assert !IsNumeric("R$5");
  }

  lemma SplitSignNotNumeric()
    requires Trim("R $5") == "R $5"
    requires ReplaceAll("R $5", "R$", "") == "R $5"
    requires ReplaceAll("R $5", " ", "") == "R$5"
    requires NumberOf(Localize("R$5")) == None
    ensures ConvertDecimal("R $5") == None
  {
    assert StripMoney("R $5") == "R$5";
  }

  lemma MoneySignKept()
    ensures ReplaceAll("R $5", "R$", "") == "R $5"
  {
    var s := "R $5";
    assert s[..2][1] == ' ' && s[1..] == " $5";
    ReplaceAbsent(" $5", "R$", "");
  }

  lemma SpaceDropped()
    ensures ReplaceAll("R $5", " ", "") == "R$5"
  {
    var s := "R $5";
    assert s[..1] != " " && s[1..] == " $5";
    assert " $5"[..1] == " " && " $5"[1..] == "$5";
    ReplaceAbsent("$5", " ", "");
  }

  lemma MoneySignDropped()
    ensures ReplaceAll("R$5", "R$", "") == "5"
  {
    assert "R$5"[..2] == "R$" && "R$5"[2..] == "5";
    ReplaceAbsent("5", "R$", "");
  }

  lemma SplitSignValue()
    ensures ConvertValue("R $5") == Some(5.0)
  {
    TrimUnchanged("R $5");
    SpaceDropped();
    MoneySignDropped();
    FiveIsNumeric();
    SplitSignCleaned();
  }

  lemma FiveIsNumeric()
    ensures NumberOf("5") == Some(5.0)
  {
    AllDigitsHasNoDot("5");
    assert IsUnsignedDecimal("5");
  }

  lemma SplitSignCleaned()
    requires Trim("R $5") == "R $5"
    requires ReplaceAll("R $5", " ", "") == "R$5"
    requires ReplaceAll("R$5", "R$", "") == "5"
    requires NumberOf("5") == Some(5.0)
    ensures ConvertValue("R $5") == Some(5.0)
  {
    assert Localize("5") == "5";
  }
}
