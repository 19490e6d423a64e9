/**
 * The clean-up of extracted report text (`refatorarTextoBanco`): the text is
 * split into lines, pagination, the title, the period banner, totals and
 * header lines are dropped, and the surviving lines are joined again with
 * line feeds. Blank lines are always kept.
 */
module TextCleanup {
  import opened Wrappers
  import opened Text
  import opened Scan
  import opened ReportLines
  import Converters

  // ----- the line predicate --------------------------------------------------------

  /** `^Página\s+\d+\s+de\s+\d+$` */
  predicate IsPageCount(l: string) {
    HasAtCI(l, 0, "Página") &&
    var a := SkipSpaces(l, 6);
    var b := SkipDigits(l, a);
    a > 6 && b > a &&
    var c := SkipSpaces(l, b);
    c > b && HasAtCI(l, c, "de") &&
    var d := SkipSpaces(l, c + 2);
    var e := SkipDigits(l, d);
    d > c + 2 && e > d && e == |l|
  }

  /** `^Custo\s+Dev\.?$` */
  predicate IsCustoDevLine(l: string) {
    HasAtCI(l, 0, "Custo") &&
    var a := SkipSpaces(l, 5);
    a > 5 && HasAtCI(l, a, "Dev") && (|l| == a + 3 || (|l| == a + 4 && l[a + 3] == '.'))
  }

  /** `[aà]` under case-insensitive matching, folded as ASCII */
  predicate IsAccentedA(c: char) { c == 'a' || c == 'A' || c == 'à' }

  /** `^\s*Per[íi]odo\s*:\s*de\s*DATE\s*[aà]\s*DATE\s*$` */
  predicate IsFullPeriod(l: string) {
    var a := SkipSpaces(l, 0);
    HasAtCI(l, a, "Per") && a + 3 < |l| && IsAccentedI(l[a + 3]) && HasAtCI(l, a + 4, "odo") &&
    var b := SkipSpaces(l, a + 7);
    b < |l| && l[b] == ':' &&
    var c := SkipSpaces(l, b + 1);
    HasAtCI(l, c, "de") &&
    var d := SkipSpaces(l, c + 2);
    match DateEnd(l, d, false)
    case None => false
    case Some(e) =>
      var f := SkipSpaces(l, e);
      f < |l| && IsAccentedA(l[f]) &&
      var g := SkipSpaces(l, f + 1);
      match DateEnd(l, g, false)
      case None => false
      case Some(h) => SkipSpaces(l, h) == |l|
  }

  // `preg_replace('/\bDev\.\s*/iu', '', $l)`, scanning the original line from `i`
  function RemoveDev(l: string, i: nat): (r: string)
    requires i <= |l|
    ensures |r| <= |l| - i
    decreases |l| - i
  {
    if i == |l| then []
    else if (i == 0 || !IsWordChar(l[i - 1])) && HasAtCI(l, i, "Dev.") then RemoveDev(l, SkipSpaces(l, i + 4))
    else [l[i]] + RemoveDev(l, i + 1)
  }

  /** The tokens that mark the table header */
  const HEADER_TOKENS: seq<string> := [
    "Cliente", "Primeira Venda", "Última Venda", "Vl Vnd Médio", "Qtd. Total Venda",
    "Custo Venda Total", "Devolução Total", "Total Custo", "Lucro (R$)", "Lucro (%)", "Custo Dev."
  ]

  /** How many of the first `n` tokens occur in `l`, ignoring ASCII case */
  function TokenCount(l: string, n: nat): (c: nat)
    requires n <= |HEADER_TOKENS|
    ensures c <= n
  {
    if n == 0 then 0 else TokenCount(l, n - 1) + (if ContainsCI(l, HEADER_TOKENS[n - 1]) then 1 else 0)
  }

  /** The filter callback: whether a line survives the clean-up */
  predicate KeepLine(line: string) {
    var l := Trim(line);
    || l == []
    || !(|| IsPageCount(l)
         || IsCustoDevLine(l)
         || IsTitleLine(l)
         || IsFullPeriod(l)
         || HasTotals(l)
         || TokenCount(RemoveDev(l, 0), |HEADER_TOKENS|) >= 4)
  }

  /** `array_values(array_filter($linhas, ...))` */
  function Filter(ls: seq<string>): (r: seq<string>)
    ensures |r| <= |ls|
    ensures forall k :: 0 <= k < |r| ==> KeepLine(r[k]) && r[k] in ls
  {
    if ls == [] then []
    else
      var prev := Filter(ls[..|ls| - 1]);
      if KeepLine(ls[|ls| - 1]) then prev + [ls[|ls| - 1]] else prev
  }

  /** What the action does with the record's text */
  datatype Outcome =
    | NoText                                // nothing extracted: a warning, the record is left alone
    | Refactored(text: string, changed: bool)

  /** `refatorarTextoBanco` on the extracted text (`null` read as "") */
  function RefactorText(texto: string): Outcome
  {
    if Empty(texto) then NoText
    else
      var limpo := JoinLines(Filter(SplitLines(texto)));
      Refactored(limpo, limpo != texto)
  }

  // ----- what the clean-up promises ----------------------------------------------------

  /** Blank lines are always kept, so paragraphs are never glued together */
  lemma BlankLinesKept(line: string)
    requires Trim(line) == []
    ensures KeepLine(line)
  {
  }

  /** Filtering works line by line: the survivors keep their order */
  lemma {:induction false} FilterConcat(a: seq<string>, b: seq<string>)
    ensures Filter(a + b) == Filter(a) + Filter(b)
    decreases |b|
  {
    if b == [] {
      assert a + b == a;
    } else {
      var b' := b[..|b| - 1];
      assert (a + b)[..|a + b| - 1] == a + b';
      FilterConcat(a, b');
    }
  }

  /** Every line that passes the predicate survives */
  lemma {:induction false} FilterKeepsAll(ls: seq<string>)
    ensures forall k :: 0 <= k < |ls| && KeepLine(ls[k]) ==> ls[k] in Filter(ls)
    decreases |ls|
  {
    if ls != [] {
      var prev := ls[..|ls| - 1];
      FilterKeepsAll(prev);
      forall k | 0 <= k < |ls| - 1 && KeepLine(ls[k])
        ensures ls[k] in Filter(ls)
      {
        assert ls[k] == prev[k];
      }
    }
  }

  /** Filtering twice drops nothing more */
  lemma {:induction false} FilterIdempotent(ls: seq<string>)
    ensures Filter(Filter(ls)) == Filter(ls)
    decreases |ls|
  {
    if ls != [] {
      var prev := ls[..|ls| - 1];
      FilterIdempotent(prev);
      if KeepLine(ls[|ls| - 1]) {
        FilterConcat(Filter(prev), [ls[|ls| - 1]]);
        assert [ls[|ls| - 1]][..0] == [];
      }
    }
  }

  /** Splitting the cleaned text gives back exactly the surviving lines, unchanged */
  lemma CleanedLines(texto: string)
    requires !Empty(texto) && Filter(SplitLines(texto)) != []
    ensures RefactorText(texto).Refactored? && SplitLines(RefactorText(texto).text) == Filter(SplitLines(texto))
  {
    var f := Filter(SplitLines(texto));
    forall k | 0 <= k < |f|
      ensures NoBreak(f[k])
    {
      var j :| 0 <= j < |SplitLines(texto)| && SplitLines(texto)[j] == f[k];
    }
    SplitJoinRoundTrip(f);
  }

  /** Cleaning a cleaned text finds nothing more to remove */
  lemma RefactorIdempotent(texto: string)
    requires !Empty(texto) && Filter(SplitLines(texto)) != []
    requires !Empty(RefactorText(texto).text)
    ensures RefactorText(RefactorText(texto).text) == Refactored(RefactorText(texto).text, false)
  {
    CleanedLines(texto);
    FilterIdempotent(SplitLines(texto));
  }

  /** A trimmed pagination or lone "Custo Dev." line is dropped */
  lemma MarkedLineDropped(l: string)
    requires l != [] && Trim(l) == l && (IsPageCount(l) || IsCustoDevLine(l))
    ensures !KeepLine(l)
  {
  }

  /** Example for `MarkedLineDropped`: "Página 2 de 7" is a pagination line */
  lemma PageCountExample()
    ensures IsPageCount("Página 2 de 7")
  {
    var l := "Página 2 de 7";
    assert HasAtCI(l, 0, "Página");
    assert SkipSpaces(l, 6) == 7 && SkipDigits(l, 7) == 8;
    assert SkipSpaces(l, 8) == 9 && HasAtCI(l, 9, "de");
    assert SkipSpaces(l, 11) == 12 && SkipDigits(l, 12) == 13;
  }

  /** Example for `MarkedLineDropped`: "Custo Dev.", what a header wrapped before its last label leaves behind, is such a line */
  lemma CustoDevExample()
    ensures IsCustoDevLine("Custo Dev.")
  {
    var l := "Custo Dev.";
    assert HasAtCI(l, 0, "Custo") && SkipSpaces(l, 5) == 6 && HasAtCI(l, 6, "Dev");
  }
}
