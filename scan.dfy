/**
 * Hand-written scanners standing for the regular expressions the parsers hand
 * to `preg_match` / `preg_match_all`. Each pattern is given by the end of its
 * match at an offset (`MatchEnd`); `Scan` then does what PCRE does for
 * `preg_match_all`: leftmost matches, non-overlapping, the search resuming at
 * the end of each match and one character further after a failed attempt.
 */
module Scan {
  import opened Wrappers
  import opened Text
  import opened Numeric

  /** A match with its offset, as `PREG_OFFSET_CAPTURE` reports it */
  datatype Match = Match(start: nat, text: string) {
    function End(): nat { start + |text| }
  }

  /** The patterns of the parsers */
  datatype Pattern =
    | Date          // \d{1,2}\/\d{1,2}\/\d{4}
    | StrictDate    // \d{2}\/\d{2}\/\d{4}
    | Run           // [\d.,]+
    | Signed        // -?[\d.,]+
    | Percent       // [\d.,]+\s*%
    | TightPercent  // [\d.,]+%
    | Money         // R?\$?\s*[\d.,]+

  /** Index just after the maximal run of `[\d.,]` that starts at `i` */
  function RunEnd(s: string, i: nat): (j: nat)
    requires i <= |s|
    ensures i <= j <= |s|
    ensures forall k :: i <= k < j ==> IsNumChar(s[k])
    ensures j == |s| || !IsNumChar(s[j])
    decreases |s| - i
  {
    if i < |s| && IsNumChar(s[i]) then RunEnd(s, i + 1) else i
  }

  /**
   * `\d{1,2}\/` (or `\d{2}\/` when `strict`) at `i`. The two-digit and the
   * one-digit reading exclude each other (the second character is either a
   * digit or the slash), so trying the greedy reading first loses nothing.
   */
  function DayMonthEnd(s: string, i: nat, strict: bool): (r: Option<nat>)
    ensures r.Some? ==> i + 2 <= r.value <= |s| && s[r.value - 1] == '/'
  {
    if i + 2 < |s| && IsDigit(s[i]) && IsDigit(s[i + 1]) && s[i + 2] == '/' then Some(i + 3)
    else if !strict && i + 1 < |s| && IsDigit(s[i]) && s[i + 1] == '/' then Some(i + 2)
    else None
  }

  /** `\d{1,2}\/\d{1,2}\/\d{4}` (or its two-digit form) at `i` */
  function DateEnd(s: string, i: nat, strict: bool): (r: Option<nat>)
    ensures r.Some? ==> i + 8 <= r.value <= |s|
  {
    match DayMonthEnd(s, i, strict)
    case None => None
    case Some(j) =>
      match DayMonthEnd(s, j, strict)
      case None => None
      case Some(k) => if k + 4 <= |s| && AllDigits(s[k..k + 4]) then Some(k + 4) else None
  }

  /** End of the match of `pat` that starts at `i`, if there is one */
  function MatchEnd(pat: Pattern, s: string, i: nat): (r: Option<nat>)
    ensures r.Some? ==> i < r.value <= |s|
  {
    if i >= |s| then None
    else match pat
      case Date => DateEnd(s, i, false)
      case StrictDate => DateEnd(s, i, true)
      case Run => if IsNumChar(s[i]) then Some(RunEnd(s, i)) else None
      case Signed =>
        if s[i] == '-' && i + 1 < |s| && IsNumChar(s[i + 1]) then Some(RunEnd(s, i + 1))
        else if IsNumChar(s[i]) then Some(RunEnd(s, i))
        else None
      case Percent =>
        // giving back digits or blanks can never reach the '%', so greedy is exact
        if IsNumChar(s[i]) then
          var q := SkipSpaces(s, RunEnd(s, i));
          if q < |s| && s[q] == '%' then Some(q + 1) else None
        else None
      case TightPercent =>
        if IsNumChar(s[i]) then
          var e := RunEnd(s, i);
          if e < |s| && s[e] == '%' then Some(e + 1) else None
        else None
      case Money =>
        var a := if s[i] == 'R' then i + 1 else i;
        var b := if a < |s| && s[a] == '$' then a + 1 else a;
        var c := SkipSpaces(s, b);
        if c < |s| && IsNumChar(s[c]) then Some(RunEnd(s, c)) else None
  }

  /** `m` is a match of `pat` in `s`: its text is the slice at its offset that the pattern matches */
  ghost predicate Genuine(pat: Pattern, s: string, m: Match) {
    m.End() <= |s| && s[m.start..m.End()] == m.text && MatchEnd(pat, s, m.start) == Some(m.End())
  }

  /** No match of `pat` starts anywhere in `[lo, hi)` */
  ghost predicate NoMatchIn(pat: Pattern, s: string, lo: nat, hi: nat) {
    forall q :: lo <= q < hi ==> MatchEnd(pat, s, q).None?
  }

  /**
   * `ms` is what a leftmost, non-overlapping search for `pat` from `from`
   * reports: genuine matches in increasing order, and no match starting in
   * any gap before, between or after them.
   */
  ghost predicate IsScanOf(pat: Pattern, s: string, ms: seq<Match>, from: nat) {
    && (forall k :: 0 <= k < |ms| ==> from <= ms[k].start && Genuine(pat, s, ms[k]))
    && (forall k :: 0 <= k < |ms| - 1 ==> ms[k].End() <= ms[k + 1].start)
    && (forall k :: 0 <= k < |ms| - 1 ==> NoMatchIn(pat, s, ms[k].End(), ms[k + 1].start))
    && (ms == [] ==> NoMatchIn(pat, s, from, |s|))
    && (ms != [] ==> NoMatchIn(pat, s, from, ms[0].start) && NoMatchIn(pat, s, ms[|ms| - 1].End(), |s|))
  }

  function ScanFrom(pat: Pattern, s: string, i: nat): (ms: seq<Match>)
    requires i <= |s|
    ensures IsScanOf(pat, s, ms, i)
    decreases |s| - i
  {
    if i == |s| then []
    else match MatchEnd(pat, s, i)
      case Some(e) =>
        var rest := ScanFrom(pat, s, e);
        ScanFound(pat, s, i, e, rest);
        [Match(i, s[i..e])] + rest
      case None =>
        var rest := ScanFrom(pat, s, i + 1);
        ScanSkip(pat, s, rest, i);
        rest
  }

  /** Putting a genuine match found at `i` in front of a scan from its end gives a scan from `i` */
  lemma ScanCons(pat: Pattern, s: string, m: Match, rest: seq<Match>, i: nat)
    requires m.start == i && Genuine(pat, s, m)
    requires IsScanOf(pat, s, rest, m.End())
    ensures IsScanOf(pat, s, [m] + rest, i)
  {
    var ms := [m] + rest;
    forall k | 0 <= k < |ms| - 1
      ensures ms[k].End() <= ms[k + 1].start && NoMatchIn(pat, s, ms[k].End(), ms[k + 1].start)
    {
      if k > 0 {
        assert ms[k] == rest[k - 1] && ms[k + 1] == rest[k];
      }
    }
  }

  /** The match found at `i` followed by a scan from its end is a scan from `i` */
  lemma ScanFound(pat: Pattern, s: string, i: nat, e: nat, rest: seq<Match>)
    requires MatchEnd(pat, s, i) == Some(e)
    requires IsScanOf(pat, s, rest, e)
    ensures IsScanOf(pat, s, [Match(i, s[i..e])] + rest, i)
  {
    var m := Match(i, s[i..e]);
    assert m.End() == e;
    ScanCons(pat, s, m, rest, i);
  }

  /** A scan from `i + 1` is a scan from `i` when no match starts at `i` */
  lemma ScanSkip(pat: Pattern, s: string, rest: seq<Match>, i: nat)
    requires i < |s| && MatchEnd(pat, s, i).None?
    requires IsScanOf(pat, s, rest, i + 1)
    ensures IsScanOf(pat, s, rest, i)
  {
  }

  /** `preg_match_all($pat, $s, ..., PREG_OFFSET_CAPTURE)` */
  function Matches(pat: Pattern, s: string): (ms: seq<Match>)
    ensures IsScanOf(pat, s, ms, 0)
  {
    ScanFrom(pat, s, 0)
  }

  /** `preg_match($pat, $s, ..., PREG_OFFSET_CAPTURE)`: the first match */
  function First(pat: Pattern, s: string): (r: Option<Match>)
    ensures r.None? ==> NoMatchIn(pat, s, 0, |s|)
    ensures r.Some? ==> Genuine(pat, s, r.value) && NoMatchIn(pat, s, 0, r.value.start)
  {
    var ms := Matches(pat, s);
    if ms == [] then None else Some(ms[0])
  }

  /** `preg_match($pat, $s)` as a test: whether a match of `pat` starts anywhere from `i` on */
  predicate MatchesFrom(pat: Pattern, s: string, i: nat)
    decreases |s| - i
  {
    i < |s| && (MatchEnd(pat, s, i).Some? || MatchesFrom(pat, s, i + 1))
  }

  /** The test succeeds exactly when some offset from `i` on starts a match */
  lemma {:induction false} MatchesFromSome(pat: Pattern, s: string, i: nat)
    ensures MatchesFrom(pat, s, i) <==> !NoMatchIn(pat, s, i, |s|)
    decreases |s| - i
  {
    if i < |s| {
      MatchesFromSome(pat, s, i + 1);
      if MatchEnd(pat, s, i).None? && NoMatchIn(pat, s, i + 1, |s|) {
        assert NoMatchIn(pat, s, i, |s|);
      }
    }
  }

  /** The test agrees with the first match the scanner reports */
  lemma MatchesFromFirst(pat: Pattern, s: string)
    ensures MatchesFrom(pat, s, 0) <==> First(pat, s).Some?
  {
    MatchesFromSome(pat, s, 0);
    var r := First(pat, s);
    if r.Some? {
      assert MatchEnd(pat, s, r.value.start).Some?;
    }
  }

  /** Index of the first `[\d.,]` character of `s`, if any */
  function FirstNumChar(s: string, i: nat): (r: Option<nat>)
    requires i <= |s|
    ensures r.Some? ==> i <= r.value < |s| && IsNumChar(s[r.value])
    ensures r.Some? ==> forall k :: i <= k < r.value ==> !IsNumChar(s[k])
    ensures r.None? ==> forall k :: i <= k < |s| ==> !IsNumChar(s[k])
    decreases |s| - i
  {
    if i == |s| then None
    else if IsNumChar(s[i]) then Some(i)
    else FirstNumChar(s, i + 1)
  }

  /** The first `[\d.,]+` match starts at the first number character, and exists exactly when one does */
  lemma FirstRunIsFirstNumChar(s: string)
    ensures var ms := Matches(Run, s); var f := FirstNumChar(s, 0);
      (ms == [] <==> f.None?) && (ms != [] ==> ms[0].start == f.value)
  {
    var ms := Matches(Run, s);
    var f := FirstNumChar(s, 0);
    if f.Some? {
      assert MatchEnd(Run, s, f.value) == Some(RunEnd(s, f.value));
    }
  }

  /** Every date match, strict or not, starts with a digit */
  lemma DateStartsWithDigit(s: string, m: Match, strict: bool)
    requires Genuine(if strict then StrictDate else Date, s, m)
    ensures IsDigit(s[m.start])
  {
  }
}
