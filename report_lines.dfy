/**
 * Line predicates of the text-report importer (`PdfTextConverterResource`):
 * which lines are noise, when the reassembled candidate is a complete data
 * row, the header detector with its label table, and the customer-name checks.
 */
module ReportLines {
  import opened Wrappers
  import opened Text
  import opened Numeric
  import opened Scan
  import opened Converters

  // ----- noise lines (isLinhaIgnoravel) -------------------------------------------

  /** `\b` just after a word character at `i`: the end, or a character that is not `\w` */
  predicate WordEndsAt(l: string, i: nat) { i >= |l| || !IsWordChar(l[i]) }

  /** `^(página|page)\b` with ASCII-only case folding */
  predicate StartsWithPageWord(l: string) {
    || (StartsWithCI(l, "página") && WordEndsAt(l, 6))
    || (StartsWithCI(l, "page") && WordEndsAt(l, 4))
  }

  /** Index just after the maximal run of '-' that starts at `i` */
  function SkipDashes(l: string, i: nat): (j: nat)
    requires i <= |l|
    ensures i <= j <= |l|
    ensures forall k :: i <= k < j ==> l[k] == '-'
    ensures j == |l| || l[j] != '-'
    decreases |l| - i
  {
    if i < |l| && l[i] == '-' then SkipDashes(l, i + 1) else i
  }

  /** `^\s*-+\s*$` (no final line feed can remain after `trim`) */
  predicate IsDashLine(l: string) {
    var j := SkipSpaces(l, 0);
    var k := SkipDashes(l, j);
    k > j && SkipSpaces(l, k) == |l|
  }

  /** `.*$`: no line feed from `p` on, except possibly the very last character */
  predicate RestOfLine(l: string, p: nat) {
    forall k :: p <= k < |l| - 1 ==> l[k] != '\n'
  }

  /** `^\s*SENNACAR\s*-\s*Venda\s*X\s*Cliente.*$` with ASCII-only case folding */
  predicate IsTitleLine(l: string) {
    var a := SkipSpaces(l, 0);
    HasAtCI(l, a, "SENNACAR") &&
    var b := SkipSpaces(l, a + 8);
    b < |l| && l[b] == '-' &&
    var c := SkipSpaces(l, b + 1);
    HasAtCI(l, c, "Venda") &&
    var d := SkipSpaces(l, c + 5);
    HasAtCI(l, d, "X") &&
    var e := SkipSpaces(l, d + 1);
    HasAtCI(l, e, "Cliente") && RestOfLine(l, e + 7)
  }

  /** `[íi]` under case-insensitive matching, folded as ASCII */
  predicate IsAccentedI(c: char) { c == 'í' || c == 'i' || c == 'I' }

  /** `^\s*Per[íi]odo\s*:` */
  predicate IsPeriodBanner(l: string) {
    var a := SkipSpaces(l, 0);
    HasAtCI(l, a, "Per") && a + 3 < |l| && IsAccentedI(l[a + 3]) && HasAtCI(l, a + 4, "odo") &&
    var b := SkipSpaces(l, a + 7);
    b < |l| && l[b] == ':'
  }

  /** `\bTOTAIS\s*:` starting at `p` */
  predicate TotalsAt(l: string, p: nat) {
    && (p == 0 || (p <= |l| && !IsWordChar(l[p - 1])))
    && HasAtCI(l, p, "TOTAIS")
    && var q := SkipSpaces(l, p + 6);
       q < |l| && l[q] == ':'
  }

  predicate HasTotals(l: string) { exists p :: 0 <= p < |l| && TotalsAt(l, p) }

  /**
   * `isLinhaIgnoravel`: after `trim`, a line is noise when it is blank, starts
   * with the word página/page, holds only dashes, is the report title, opens
   * the "Período:" banner or contains "TOTAIS:" anywhere.
   */
  predicate IsNoise(line: string) {
    var l := Trim(line);
    l == [] || StartsWithPageWord(l) || IsDashLine(l) || IsTitleLine(l) || IsPeriodBanner(l) || HasTotals(l)
  }

  /** `trim` of a trimmed string changes nothing */
  lemma TrimIdempotent(s: string)
    ensures Trim(Trim(s)) == Trim(s)
  {
    TrimUnchanged(Trim(s));
  }

  /** The classifier trims by itself: trimming first changes nothing */
  lemma NoiseIgnoresTrim(line: string)
    ensures IsNoise(Trim(line)) == IsNoise(line)
  {
    TrimIdempotent(line);
  }

  /** A totals row is noise wherever "TOTAIS:" sits, once it starts a word */
  lemma TotalsLineIsNoise(pre: string, post: string)
    requires pre == [] || !IsWordChar(pre[|pre| - 1])
    requires Trim(pre + "TOTAIS:" + post) == pre + "TOTAIS:" + post
    ensures IsNoise(pre + "TOTAIS:" + post)
  {
    var l := pre + "TOTAIS:" + post;
    assert l[|pre| + 6] == ':';
    assert l[|pre|..|pre| + 6] == "TOTAIS";
    assert HasAtCI(l, |pre|, "TOTAIS");
    assert |pre| > 0 ==> l[|pre| - 1] == pre[|pre| - 1];
    assert TotalsAt(l, |pre|);
  }

  // ----- complete rows (isLinhaCompleta) -------------------------------------------

  /** `isLinhaCompleta`: two dates and seven `[\d.,]+` runs */
  predicate IsComplete(line: string) {
    |Matches(Date, line)| >= 2 && |Matches(Run, line)| >= 7
  }

  /** A complete row always has a number character, so the customer cut always exists */
  lemma CompleteHasNumChar(line: string)
    requires IsComplete(line)
    ensures FirstNumChar(line, 0).Some?
  {
    FirstRunIsFirstNumChar(line);
  }

  // ----- header (detectarCabecalhoEMapearColunas) -------------------------------------

  /** Column keys and the labels that announce them, in the order they are tried */
  const HEADER_LABELS: seq<(string, string)> := [
    ("cliente", "Cliente"),
    ("primeira_venda", "Primeira Venda"),
    ("ultima_venda", "Última Venda"),
    ("vl_vnd_medio", "Vl Vnd Médio"),
    ("qtd", "Qtd. Total Venda"),
    ("custo_venda", "Custo Venda Total"),
    ("total_devolucao", "Devolução"),
    ("custo_dev", "Custo Dev. Total"),
    ("total_custo", "Total Custo"),
    ("lucro_reais", "Lucro (R$)"),
    ("lucro_percentual", "Lucro (%)")
  ]

  /** Labels required for a header line */
  const HEADER_THRESHOLD: nat := 8

  /** How many of the first `n` labels occur in the normalized line */
  function HitCount(labels: seq<(string, string)>, norm: string, n: nat): (c: nat)
    requires n <= |labels|
    ensures c <= n
  {
    if n == 0 then 0
    else HitCount(labels, norm, n - 1) + (if ContainsCI(norm, labels[n - 1].1) then 1 else 0)
  }

  /** The mapping after the first `n` labels have been tried: each found key gets its label */
  function MappingAfter(labels: seq<(string, string)>, mapping: map<string, string>, norm: string, n: nat): map<string, string>
    requires n <= |labels|
  {
    if n == 0 then mapping
    else
      var prev := MappingAfter(labels, mapping, norm, n - 1);
      if ContainsCI(norm, labels[n - 1].1) then prev[labels[n - 1].0 := labels[n - 1].1] else prev
  }

  /** No two labels announce the same key */
  predicate KeysDistinct(labels: seq<(string, string)>) {
    forall i, j :: 0 <= i < j < |labels| ==> labels[i].0 != labels[j].0
  }

  lemma HeaderKeysDistinct()
    ensures KeysDistinct(HEADER_LABELS)
  {
  }

  /**
   * What the detector leaves in the mapping: only old keys and label keys;
   * every found label's key holds exactly that label; keys no label names keep
   * their old value.
   */
  lemma {:induction false} MappingAfterSpec(labels: seq<(string, string)>, mapping: map<string, string>, norm: string, n: nat)
    requires n <= |labels| && KeysDistinct(labels)
    ensures var m := MappingAfter(labels, mapping, norm, n);
      && (forall k :: k in m ==> k in mapping || exists i :: 0 <= i < n && labels[i].0 == k)
      && (forall i :: 0 <= i < n && ContainsCI(norm, labels[i].1) ==>
            labels[i].0 in m && m[labels[i].0] == labels[i].1)
      && (forall k :: k in mapping && (forall i :: 0 <= i < n ==> labels[i].0 != k) ==>
            k in m && m[k] == mapping[k])
    decreases n
  {
    if n > 0 {
      MappingAfterSpec(labels, mapping, norm, n - 1);
    }
  }

  lemma MappingStep(labels: seq<(string, string)>, mapping: map<string, string>, norm: string, i: nat)
    requires i < |labels|
    ensures HitCount(labels, norm, i + 1) == HitCount(labels, norm, i) + (if ContainsCI(norm, labels[i].1) then 1 else 0)
    ensures MappingAfter(labels, mapping, norm, i + 1) ==
      (if ContainsCI(norm, labels[i].1)
       then MappingAfter(labels, mapping, norm, i)[labels[i].0 := labels[i].1]
       else MappingAfter(labels, mapping, norm, i))
  {
  }

  /** The line as the detector searches it: trimmed, whitespace runs collapsed */
  function HeaderNormal(line: string): string { Collapse(Trim(line)) }

  /**
   * `detectarCabecalhoEMapearColunas`: every label found (ASCII case-insensitive)
   * writes its key into the caller's mapping, whether or not the line turns out
   * to be a header; the line is a header when at least eight labels are found.
   */
  method DetectHeader(line: string, mapping: map<string, string>) returns (isHeader: bool, mapping': map<string, string>)
    ensures isHeader <==> HitCount(HEADER_LABELS, HeaderNormal(line), |HEADER_LABELS|) >= HEADER_THRESHOLD
    ensures mapping' == MappingAfter(HEADER_LABELS, mapping, HeaderNormal(line), |HEADER_LABELS|)
  {
    var normalized := Collapse(Trim(line));
    var found := 0;
    mapping' := mapping;
    var i := 0;
    while i < |HEADER_LABELS|
      invariant 0 <= i <= |HEADER_LABELS|
      invariant found == HitCount(HEADER_LABELS, normalized, i)
      invariant mapping' == MappingAfter(HEADER_LABELS, mapping, normalized, i)
    {
      var key := HEADER_LABELS[i].0;
      var caption := HEADER_LABELS[i].1;
      if FindCI(normalized, caption, 0).Some? {
        mapping' := mapping'[key := caption];
        found := found + 1;
      }
      MappingStep(HEADER_LABELS, mapping, normalized, i);
      i := i + 1;
    }
    isHeader := found >= HEADER_THRESHOLD;
  }

  /** A header line written with all eleven labels is recognised */
  lemma FullHeaderDetected(line: string)
    requires forall i :: 0 <= i < |HEADER_LABELS| ==> ContainsCI(HeaderNormal(line), HEADER_LABELS[i].1)
    ensures HitCount(HEADER_LABELS, HeaderNormal(line), |HEADER_LABELS|) >= HEADER_THRESHOLD
  {
    AllHits(HEADER_LABELS, HeaderNormal(line), |HEADER_LABELS|);
  }

  lemma {:induction false} AllHits(labels: seq<(string, string)>, norm: string, n: nat)
    requires n <= |labels|
    requires forall i :: 0 <= i < n ==> ContainsCI(norm, labels[i].1)
    ensures HitCount(labels, norm, n) == n
    decreases n
  {
    if n > 0 {
      AllHits(labels, norm, n - 1);
    }
  }

  /** With `|missing|` labels absent, at most `n - |missing|` of the first `n` are found */
  lemma {:induction false} MissesBound(labels: seq<(string, string)>, norm: string, n: nat, missing: set<nat>)
    requires n <= |labels|
    requires forall i :: i in missing ==> i < n && !ContainsCI(norm, labels[i].1)
    ensures HitCount(labels, norm, n) <= n - |missing|
    decreases n
  {
    if n > 0 {
      if n - 1 in missing {
        var rest := missing - {n - 1};
        assert |rest| == |missing| - 1;
        MissesBound(labels, norm, n - 1, rest);
      } else {
        MissesBound(labels, norm, n - 1, missing);
      }
    } else {
      assert forall i :: i !in missing;
      assert missing == {};
    }
  }

  /** With four labels missing the line is not a header, whatever else it holds */
  lemma MissesBlockHeader(norm: string, missing: set<nat>)
    requires |missing| >= |HEADER_LABELS| - HEADER_THRESHOLD + 1
    requires forall i :: i in missing ==> i < |HEADER_LABELS| && !ContainsCI(norm, HEADER_LABELS[i].1)
    ensures HitCount(HEADER_LABELS, norm, |HEADER_LABELS|) < HEADER_THRESHOLD
  {
    MissesBound(HEADER_LABELS, norm, |HEADER_LABELS|, missing);
  }

  // ----- customers -----------------------------------------------------------------

  /** `^[^a-zA-Z0-9]+$`: no ASCII letter or digit at all (and not empty) */
  predicate NoAlnum(s: string) {
    s != [] && forall k :: 0 <= k < |s| ==> !IsAsciiLetter(s[k]) && !IsDigit(s[k])
  }

  /**
   * `isValidClientName` of the text-report parser: after `trim`, at least two
   * bytes, not numeric, not a date, not starting with "R$", and not made only
   * of symbols.
   */
  predicate IsValidClientName(name: string) {
    var n := Trim(name);
    && Utf8Length(n) >= 2
    && !IsNumeric(n)
    && BrDateParts(n).None?
    && !HasAt(n, 0, "R$")
    && !NoAlnum(n)
  }

  /** `validarDadosCliente`: the customer is not PHP-empty and has at least two bytes */
  predicate IsValidCustomer(cliente: string) {
    !Empty(cliente) && Utf8Length(cliente) >= 2
  }

  /** A name the fallback accepts is itself a valid customer */
  lemma ValidNameIsValidCustomer(name: string)
    requires IsValidClientName(name)
    ensures IsValidCustomer(Trim(name))
  {
  }

  // ----- isLinhaValidaPlanilha (defined, never called) -------------------------------

  /** `$` after a word: the end of the line or a final line feed */
  predicate EqualsWordCI(l: string, w: string) {
    EqualsCI(l, w) || (|l| == |w| + 1 && l[|w|] == '\n' && HasAtCI(l, 0, w))
  }

  predicate AnyPrefixCI(l: string, ws: seq<string>) { exists i :: 0 <= i < |ws| && StartsWithCI(l, ws[i]) }

  predicate AnyWordCI(l: string, ws: seq<string>) { exists i :: 0 <= i < |ws| && EqualsWordCI(l, ws[i]) }

  /** Index just after the maximal run of digits that starts at `i` */
  function SkipDigits(l: string, i: nat): (j: nat)
    requires i <= |l|
    ensures i <= j <= |l|
    decreases |l| - i
  {
    if i < |l| && IsDigit(l[i]) then SkipDigits(l, i + 1) else i
  }

  /** Only whitespace from `i` to the end */
  predicate BlankFrom(l: string, i: nat) { i <= |l| && SkipSpaces(l, i) == |l| }

  /** `^\d+\/\d+\/\d+\s*$` */
  predicate IsBareDate(l: string) {
    var a := SkipDigits(l, 0);
    a > 0 && a < |l| && l[a] == '/' &&
    var b := SkipDigits(l, a + 1);
    b > a + 1 && b < |l| && l[b] == '/' &&
    var c := SkipDigits(l, b + 1);
    c > b + 1 && BlankFrom(l, c)
  }

  /** `^(per[íi]odo)\s*:` and `^(relat[óo]rio)\s*:` without the `u` flag: one byte of the class, so only the ASCII letter */
  predicate IsBannerWord(l: string, before: string, letter: char, after: string) {
    HasAtCI(l, 0, before) && |before| < |l| && Lower(l[|before|]) == letter && HasAtCI(l, |before| + 1, after) &&
    var b := SkipSpaces(l, |before| + 1 + |after|);
    b < |l| && l[b] == ':'
  }

  /** `^R\$[\d,\.]+\s*$`, `^\d+\s*$` and `^[\d,\.]+%\s*$` */
  predicate IsBareAmount(l: string) {
    || (|l| >= 3 && Lower(l[0]) == 'r' && l[1] == '$' && IsNumChar(l[2]) && BlankFrom(l, Scan.RunEnd(l, 2)))
    || (|l| >= 1 && IsDigit(l[0]) && BlankFrom(l, SkipDigits(l, 0)))
    || (|l| >= 1 && IsNumChar(l[0]) && Scan.RunEnd(l, 0) < |l| && l[Scan.RunEnd(l, 0)] == '%' && BlankFrom(l, Scan.RunEnd(l, 0) + 1))
  }

  const WEEKDAYS: seq<string> :=
    ["quinta-feira", "segunda-feira", "terça-feira", "quarta-feira", "sexta-feira", "sábado", "domingo"]

  const HEADER_WORDS: seq<string> := ["cliente", "nome", "data", "valor", "período"]

  const PREPOSITIONS: seq<string> := ["de", "à", "até", "para", "em", "com", "por", "sem", "sobre"]

  /** One of the twelve patterns that reject a line */
  predicate IsInvalidRow(l: string) {
    || AnyPrefixCI(l, ["total", "subtotal", "soma"])
    || AnyPrefixCI(l, ["página", "page"])
    || IsBareDate(l)
    || AnyWordCI(l, HEADER_WORDS)
    || IsBannerWord(l, "per", 'i', "odo")
    || IsBannerWord(l, "relat", 'o', "rio")
    || IsDashLine(l)
    || AnyPrefixCI(l, WEEKDAYS)
    || AnyWordCI(l, PREPOSITIONS)
    || IsBareAmount(l)
  }

  /**
   * `isLinhaValidaPlanilha` of the text-report parser: none of the rejecting
   * patterns, at least three whitespace-separated parts and at least one digit.
   */
  predicate IsDataRow(line: string) {
    !IsInvalidRow(line) && |Split(Blanks, Trim(line))| >= 3 && HasDigit(line)
  }

  /** Any accepted row matches no rejecting pattern, has a digit and is split into three or more parts free of whitespace */
  lemma DataRowShape(line: string)
    requires IsDataRow(line)
    ensures !IsInvalidRow(line) && |Split(Blanks, Trim(line))| >= 3
    ensures HasDigit(line) && !IsDashLine(line)
    ensures forall p :: 0 <= p < |Split(Blanks, Trim(line))| ==> forall k :: 0 <= k < |Split(Blanks, Trim(line))[p]| ==> !IsSpace(Split(Blanks, Trim(line))[p][k])
  {
  }
}
