/**
 * Row and name checks of the upload importer (`PdfUploadResource`): the
 * customer-name validator with its stop words, the row filter, and the
 * one-field report-line parser.
 */
module UploadRows {
  import opened Wrappers
  import opened Text
  import opened Numeric
  import opened Scan
  import opened ReportLines

  /** Words that are never a customer, compared after ASCII lower-casing */
  const STOP_WORDS: seq<string> := [
    "quinta-feira", "segunda-feira", "terça-feira", "quarta-feira",
    "sexta-feira", "sábado", "domingo", "de", "à", "até", "para",
    "período", "cliente", "total", "qtd", "sennacar", "venda",
    "relatório", "nome", "data", "valor", "em", "com", "por",
    "sem", "sobre", "subtotal", "soma", "página", "page", "primeira",
    "última", "médio", "custo", "devolução", "lucro"
  ]

  /** `R\$|[\d,\.]+%?|\d{1,2}\/\d{1,2}\/\d{4}`, the whole of `x` */
  predicate IsBareToken(x: string) {
    || x == "R$"
    || (x != [] && RunEnd(x, 0) == |x|)
    || (|x| >= 2 && x[|x| - 1] == '%' && RunEnd(x, 0) == |x| - 1)
    || DateEnd(x, 0, false) == Some(|x|)
  }

  /** `^(...)$`: `$` also matches before a final line feed */
  predicate IsBareName(name: string) {
    IsBareToken(name) || (name != [] && name[|name| - 1] == '\n' && IsBareToken(name[..|name| - 1]))
  }

  /**
   * `isValidClientName` of the upload importer: not PHP-empty, at least three
   * bytes, not numeric, not a stop word, not a bare amount, percentage or
   * date, and holding an ASCII letter.
   */
  predicate IsUploadClientName(name: string) {
    && !Empty(name)
    && Utf8Length(name) >= 3
    && !IsNumeric(name)
    && LowerStr(name) !in STOP_WORDS
    && !IsBareName(name)
    && HasAsciiLetter(name)
  }

  /** One of the ten patterns that reject a line */
  predicate IsUploadInvalidRow(l: string) {
    || AnyPrefixCI(l, ["total", "subtotal", "soma"])
    || AnyPrefixCI(l, ["página", "page"])
    || IsBareDate(l)
    || AnyWordCI(l, HEADER_WORDS)
    || IsDashLine(l)
    || AnyPrefixCI(l, WEEKDAYS)
    || AnyWordCI(l, PREPOSITIONS)
    || IsBareAmount(l)
  }

  /** `isLinhaValidaPlanilha` of the upload importer: no rejecting pattern and at least three parts */
  predicate IsUploadRow(line: string) {
    !IsUploadInvalidRow(line) && |Split(Blanks, Trim(line))| >= 3
  }

  /**
   * The text-report importer's row filter is the stricter one: it adds the
   * period and report banners and demands a digit, so every row it accepts
   * the upload importer accepts too.
   */
  lemma TextRowIsUploadRow(line: string)
    requires IsDataRow(line)
    ensures IsUploadRow(line)
  {
  }

  /** A row the filter accepts never starts with "total" nor is a dash line, and its parts hold no blank */
  lemma UploadRowShape(line: string)
    requires IsUploadRow(line)
    ensures !StartsWithCI(line, "total") && !IsDashLine(line)
    ensures var parts := Split(Blanks, Trim(line));
      |parts| >= 3 && forall p :: 0 <= p < |parts| ==> forall k :: 0 <= k < |parts[p]| ==> !IsSpace(parts[p][k])
  {
    assert ["total", "subtotal", "soma"][0] == "total";
  }

  // ----- parsearLinhaRelatorioSennacar (defined, never called) -----------------------

  /** The stop words of the one-field parser ("Quinta-feira" can never equal a lower-cased word) */
  const SENNACAR_STOP_WORDS: seq<string> := [
    "quinta-feira", "Quinta-feira", "segunda-feira", "terça-feira", "quarta-feira",
    "sexta-feira", "sábado", "domingo", "de", "à", "período",
    "cliente", "total", "qtd", "sennacar", "venda", "relatório"
  ]

  /** `parsearLinhaRelatorioSennacar`: only the customer, the first blank-separated part, is kept */
  function SennacarCustomer(line: string): Option<string>
  {
    var parts := Split(Blanks, Trim(line));
    if |parts| < 2 then None
    else
      var cliente := Trim(parts[0]);
      if Empty(cliente) || Utf8Length(cliente) < 3 || IsNumeric(cliente) then None
      else if LowerStr(cliente) in SENNACAR_STOP_WORDS then None
      else Some(cliente)
  }

  /** The customer found is a part of the line: no whitespace, at least three bytes, not numeric, not a stop word */
  lemma SennacarCustomerShape(line: string)
    requires SennacarCustomer(line).Some?
    ensures var c := SennacarCustomer(line).value;
      && Utf8Length(c) >= 3 && !IsNumeric(c) && LowerStr(c) !in SENNACAR_STOP_WORDS
      && (forall k :: 0 <= k < |c| ==> !IsSpace(c[k]))
      && (forall k :: 0 <= k < |c| ==> c[k] in line)
  {
    var parts := Split(Blanks, Trim(line));
    var c := SennacarCustomer(line).value;
    assert c == Trim(parts[0]);
    forall k | 0 <= k < |c|
      ensures !IsSpace(c[k]) && c[k] in line
    {
      assert c[k] in parts[0];
      var i :| 0 <= i < |parts[0]| && parts[0][i] == c[k];
      assert parts[0][i] in Trim(line);
      var j :| 0 <= j < |Trim(line)| && Trim(line)[j] == c[k];
      assert Trim(line)[j] in line;
    }
  }

  /** The upload stop words cover those of the one-field parser, up to its unreachable capitalised entry */
  lemma StopWordsCover()
    ensures forall w :: w in SENNACAR_STOP_WORDS && w != "Quinta-feira" ==> w in STOP_WORDS
  {
  }
}
