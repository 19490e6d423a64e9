/**
 * The console command `pdf:processar` (`ProcessarPdfCommand`): the text of a
 * PDF is split into lines, header and blank lines are skipped, and every
 * other line goes through `parsearLinhaDados`, which pulls dates, amounts and
 * percentages out of the line with regular expressions, takes what is left as
 * the customer, and writes the amounts into an array that is never declared.
 *
 * As written the parser can never produce a row the extractor keeps: it never
 * stores the customer, a second amount on a line calls `converterInteiro`,
 * a method the command does not define, and a line with a customer but no
 * amount returns `$dados` without ever writing it, so extracting the text ends
 * in an exception or error that nothing in the extractor handles. The last part
 * models the parser as evidently intended, writing into `$dadosCliente` and
 * reading the quantity as an integer, and relates the two.
 */
module ProcessCommand {
  import opened Wrappers
  import opened Text
  import opened Numeric
  import opened Scan
  import Converters

  /** The array `parsearLinhaDados` returns, with its float values */
  type Row = map<string, real>

  // ----- cleaning a matched amount and percentage ------------------------------------

  /** A character of the class `[R$\s]` */
  predicate IsMoneyMark(c: char) { c == 'R' || c == '$' || IsSpace(c) }

  /** `preg_replace('/[R$\s]/', '', $v)` */
  function DropMoneyMarks(v: string): (r: string)
    ensures |r| <= |v|
    ensures forall k :: 0 <= k < |r| ==> r[k] in v && !IsMoneyMark(r[k])
  {
    if v == [] then []
    else
      var rest := DropMoneyMarks(v[1..]);
      assert forall c :: c in v[1..] ==> c in v;
      if IsMoneyMark(v[0]) then rest else [v[0]] + rest
  }

  lemma {:induction false} DropMoneyMarksConcat(x: string, y: string)
    ensures DropMoneyMarks(x + y) == DropMoneyMarks(x) + DropMoneyMarks(y)
    decreases |x|
  {
    if x == [] {
      assert x + y == y;
    } else {
      assert (x + y)[1..] == x[1..] + y && (x + y)[0] == x[0];
      DropMoneyMarksConcat(x[1..], y);
    }
  }

  /** The money class deletes nothing from a run of digits, dots and commas */
  lemma {:induction false} DropMoneyMarksRun(v: string)
    requires forall k :: 0 <= k < |v| ==> IsNumChar(v[k])
    ensures DropMoneyMarks(v) == v
    decreases |v|
  {
    if v != [] {
      DropMoneyMarksRun(v[1..]);
      assert [v[0]] + v[1..] == v;
    }
  }

  /** A character outside the class survives the deletion */
  lemma {:induction false} DropMoneyMarksKeeps(v: string, k: nat)
    requires k < |v| && !IsMoneyMark(v[k])
    ensures v[k] in DropMoneyMarks(v)
    decreases k
  {
    if k > 0 {
      DropMoneyMarksKeeps(v[1..], k - 1);
    }
  }

  /** The cleaned text of an amount: marks deleted, the comma turned into a point */
  function CleanMoney(v: string): (r: string)
    ensures |r| <= |v|
  {
    var w := DropMoneyMarks(v);
    Converters.ReplaceCharPointwise(w, ',', '.');
    ReplaceAll(w, ",", ".")
  }

  /** The cleaned text of a percentage: '%' deleted, then a comma turned into a point */
  function PercentText(v: string): (r: string)
    ensures |r| <= |v|
  {
    var w := ReplaceAll(v, "%", "");
    Converters.ReplaceCharPointwise(w, ',', '.');
    ReplaceAll(w, ",", ".")
  }

  /** `floatval` of a cleaned amount */
  function Amount(t: string): real {
    Converters.FloatVal(CleanMoney(t))
  }

  /** The values of the amount matches, in order */
  function Values(ms: seq<Match>): (vs: seq<real>)
    ensures |vs| == |ms|
  {
    if ms == [] then [] else Values(ms[..|ms| - 1]) + [Amount(ms[|ms| - 1].text)]
  }

  /** Every character an amount match spans is a mark or a number character, and it ends in one of the latter */
  lemma MoneySpanChars(s: string, i: nat, e: nat)
    requires MatchEnd(Money, s, i) == Some(e)
    ensures forall k :: i <= k < e ==> IsMoneyMark(s[k]) || IsNumChar(s[k])
    ensures IsNumChar(s[e - 1])
  {
    var a := if s[i] == 'R' then i + 1 else i;
    var b := if a < |s| && s[a] == '$' then a + 1 else a;
    var c := SkipSpaces(s, b);
    assert c < |s| && IsNumChar(s[c]) && e == RunEnd(s, c);
  }

  /** The same for the text of a match */
  lemma MoneyMatchChars(s: string, m: Match)
    requires Genuine(Money, s, m)
    ensures forall k :: 0 <= k < |m.text| ==> IsMoneyMark(m.text[k]) || IsNumChar(m.text[k])
    ensures m.text != [] && IsNumChar(m.text[|m.text| - 1])
  {
    MoneySpanChars(s, m.start, m.End());
    forall k | 0 <= k < |m.text|
      ensures IsMoneyMark(m.text[k]) || IsNumChar(m.text[k])
    {
      assert m.text[k] == s[m.start + k];
    }
    assert m.text[|m.text| - 1] == s[m.End() - 1];
  }

  /** Cleaning an amount match leaves a non-empty string of digits and points */
  lemma MoneyCleaned(s: string, m: Match)
    requires Genuine(Money, s, m)
    ensures CleanMoney(m.text) != [] && Converters.DigitsAndDots(CleanMoney(m.text))
  {
    MoneyMatchChars(s, m);
    var w := DropMoneyMarks(m.text);
    DropMoneyMarksKeeps(m.text, |m.text| - 1);
    Converters.ReplaceCharPointwise(w, ',', '.');
  }

  /** "R$ x,y" is read as x.y */
  lemma MoneyValue(x: string, y: string)
    requires AllDigits(x) && AllDigits(y)
    ensures Amount("R$ " + x + "," + y) == Converters.DecimalOf(false, x, y)
  {
    AmountDropped(x, y);
    Converters.FloatValDecimal(x, y, "");
    assert x + "." + y + "" == x + "." + y;
  }

  /**
   * The dots of thousands are not deleted before the comma becomes a point, so
   * "R$ a.b,c" is read as a.b: "R$ 1.234,56" gives 1.234.
   */
  lemma MoneyThousandsMisread(a: string, b: string, c: string)
    requires AllDigits(a) && AllDigits(b) && AllDigits(c)
    ensures Amount("R$ " + a + "." + b + "," + c) == Converters.DecimalOf(false, a, b)
  {
    ThousandsCleaned(a, b, c);
    Converters.FloatValDecimal(a, b, "." + c);
  }

  /** Cleaning "R$ a.b,c" keeps the dot and turns the comma into a second point */
  lemma ThousandsCleaned(a: string, b: string, c: string)
    requires AllDigits(a) && AllDigits(b) && AllDigits(c)
    ensures CleanMoney("R$ " + a + "." + b + "," + c) == a + "." + b + ("." + c)
  {
    var t := a + "." + b;
    DottedDigits(a, b);
    AmountDropped(t, c);
    assert "R$ " + t + "," + c == "R$ " + a + "." + b + "," + c;
    assert t + "." + c == a + "." + b + ("." + c);
  }

  /** Digits, a point and digits hold number characters and no comma */
  lemma DottedDigits(a: string, b: string)
    requires AllDigits(a) && AllDigits(b)
    ensures var t := a + "." + b; forall k :: 0 <= k < |t| ==> IsNumChar(t[k]) && t[k] != ','
  {
    var t := a + "." + b;
    forall k | 0 <= k < |t|
      ensures IsNumChar(t[k]) && t[k] != ','
    {
      if k < |a| { assert t[k] == a[k]; } else if k > |a| { assert t[k] == b[k - |a| - 1]; }
    }
  }

  /** Turning the only comma into a point */
  lemma CommaBecomesPoint(x: string, y: string)
    requires ',' !in x && ',' !in y
    ensures ReplaceAll(x + "," + y, ",", ".") == x + "." + y
  {
    var t, u := x + "," + y, x + "." + y;
    var r := ReplaceAll(t, ",", ".");
    Converters.ReplaceCharPointwise(t, ',', '.');
    forall k | 0 <= k < |r| ensures r[k] == u[k] {
      if k < |x| {
        assert t[k] == x[k] == u[k];
      } else if k > |x| {
        assert t[k] == y[k - |x| - 1] == u[k];
      }
    }
  }

  /** The cleaned text of "R$ " + x + "," + y, for x free of marks and commas */
  lemma AmountDropped(x: string, y: string)
    requires forall k :: 0 <= k < |x| ==> IsNumChar(x[k]) && x[k] != ','
    requires AllDigits(y)
    ensures CleanMoney("R$ " + x + "," + y) == x + "." + y
  {
    var v := "R$ " + x + "," + y;
    assert v == "R$ " + (x + ("," + y));
    DropMoneyMarksConcat("R$ ", x + ("," + y));
    assert DropMoneyMarks("R$ ") == [] by {
      assert "R$ "[1..] == "$ " && "$ "[1..] == " " && " "[1..] == [];
    }
    assert forall k :: 0 <= k < |"," + y| ==> IsNumChar(("," + y)[k]);
    DropMoneyMarksRun(x + ("," + y));
    assert DropMoneyMarks(v) == x + "," + y;
    assert ',' !in y;
    CommaBecomesPoint(x, y);
  }

  /** "x,y%" is read as x.y */
  lemma PercentValue(x: string, y: string)
    requires AllDigits(x) && AllDigits(y)
    ensures Converters.FloatVal(PercentText(x + "," + y + "%")) == Converters.DecimalOf(false, x, y)
  {
    assert '%' !in x + "," + y && ',' !in x && ',' !in y;
    Converters.PercentSignDropped(x + "," + y);
    CommaBecomesPoint(x, y);
    Converters.FloatValDecimal(x, y, "");
    assert x + "." + y + "" == x + "." + y;
  }

  // ----- parsearLinhaDados -------------------------------------------------------------

  /** `str_replace($m, '', ...)` for every match text in turn */
  function RemoveMatches(s: string, ms: seq<Match>): (r: string)
    ensures |r| <= |s|
    ensures forall k :: 0 <= k < |r| ==> r[k] in s
  {
    if ms == [] then s
    else
      var prev := RemoveMatches(s, ms[..|ms| - 1]);
      var r := ReplaceAll(prev, ms[|ms| - 1].text, "");
      assert forall k :: 0 <= k < |r| ==> r[k] in prev;
      r
  }

  /** What is left of the collapsed line once dates, amounts and percentages are deleted, trimmed */
  function CommandCustomer(l: string): string {
    var noDates := RemoveMatches(l, Matches(StrictDate, l));
    var noMoney := RemoveMatches(noDates, Matches(Money, l));
    Trim(RemoveMatches(noMoney, Matches(TightPercent, l)))
  }

  /** The first percentage of the line, read */
  function FirstPercent(l: string): Option<real> {
    var ps := Matches(TightPercent, l);
    if ps == [] then None else Some(Converters.FloatVal(PercentText(ps[0].text)))
  }

  /**
   * The end of `parsearLinhaDados`, from the customer text, the amounts and
   * the first percentage: `None` for no customer, the crash of the undefined
   * `converterInteiro` for a second amount, the failure of reading `$dados`
   * when nothing was written into it (the array is never declared, and the
   * command runs under Laravel, which turns the warning into an exception),
   * otherwise the average sale and the profit percentage, and never the customer.
   */
  function Outcome(cliente: string, valores: seq<real>, percent: Option<real>): (r: Result<Option<Row>, Crash>)
    ensures r.Failure? <==> !Empty(cliente) && Utf8Length(cliente) >= 2 && (|valores| >= 2 || (valores == [] && percent.None?))
    ensures r.Failure? && |valores| >= 2 ==> r.error == UndefinedMethod("converterInteiro")
    ensures r.Failure? && |valores| < 2 ==> r.error == UndefinedVariable("dados")
    ensures r == Success(None) <==> Empty(cliente) || Utf8Length(cliente) < 2
    ensures r.Success? && r.value.Some? ==>
      && "cliente" !in r.value.value
      && (forall key :: key in r.value.value ==> key == "vl_vnd_medio" || key == "lucro_percentual")
      && ("vl_vnd_medio" in r.value.value <==> |valores| == 1)
      && ("vl_vnd_medio" in r.value.value ==> r.value.value["vl_vnd_medio"] == valores[0])
      && ("lucro_percentual" in r.value.value <==> percent.Some?)
      && ("lucro_percentual" in r.value.value ==> r.value.value["lucro_percentual"] == percent.value)
  {
    if Empty(cliente) || Utf8Length(cliente) < 2 then Success(None)
    else if |valores| >= 2 then Failure(UndefinedMethod("converterInteiro"))
    else
      var withValue: Row := if |valores| == 1 then map["vl_vnd_medio" := valores[0]] else map[];
      if valores == [] && percent.None? then Failure(UndefinedVariable("dados"))
      else Success(Some(if percent.Some? then withValue["lucro_percentual" := percent.value] else withValue))
  }

  /** `parsearLinhaDados` on one line */
  function CommandParse(line: string): Result<Option<Row>, Crash> {
    var l := Collapse(Trim(line));
    Outcome(CommandCustomer(l), Values(Matches(Money, l)), FirstPercent(l))
  }

  /** One `str_replace` loop: every match text deleted in turn */
  method RemoveAll(s: string, ms: seq<Match>) returns (r: string)
    ensures r == RemoveMatches(s, ms)
  {
    r := s;
    for i := 0 to |ms|
      invariant r == RemoveMatches(s, ms[..i])
    {
      assert ms[..i + 1][..i] == ms[..i];
      r := ReplaceAll(r, ms[i].text, "");
    }
    assert ms[..|ms|] == ms;
  }

  /** The three `str_replace` loops and the `trim` that leave the customer */
  method CustomerOf(l: string) returns (cliente: string)
    ensures cliente == CommandCustomer(l)
  {
    var noDates := RemoveAll(l, Matches(StrictDate, l));
    var noMoney := RemoveAll(noDates, Matches(Money, l));
    var clienteLine := RemoveAll(noMoney, Matches(TightPercent, l));
    cliente := Trim(clienteLine);
  }

  /** The loop that cleans and reads every amount */
  method ValuesOf(money: seq<Match>) returns (valores: seq<real>)
    ensures valores == Values(money)
  {
    valores := [];
    for i := 0 to |money|
      invariant valores == Values(money[..i])
    {
      assert money[..i + 1][..i] == money[..i];
      valores := valores + [Amount(money[i].text)];
    }
    assert money[..|money|] == money;
  }

  /** The imperative `parsearLinhaDados`, step for step */
  method ParseCommandLine(line: string) returns (r: Result<Option<Row>, Crash>)
    ensures r == CommandParse(line)
  {
    var l := Collapse(Trim(line));
    var cliente := CustomerOf(l);
    var percent := FirstPercent(l);
    if Empty(cliente) || Utf8Length(cliente) < 2 {
      return Success(None);
    }
    var valores := ValuesOf(Matches(Money, l));
    r := StoreValues(cliente, valores, percent);
  }

  /** The writes into `$dados` once the customer is known to be present */
  method StoreValues(cliente: string, valores: seq<real>, percent: Option<real>) returns (r: Result<Option<Row>, Crash>)
    requires !Empty(cliente) && Utf8Length(cliente) >= 2
    ensures r == Outcome(cliente, valores, percent)
  {
    var dados: Row := map[];
    var written := false;  // `$dados` is never declared: it exists once written
    if |valores| >= 1 {
      dados, written := dados["vl_vnd_medio" := valores[0]], true;
    }
    if |valores| >= 2 {
      return Failure(UndefinedMethod("converterInteiro"));
    }
    if percent.Some? {
      dados, written := dados["lucro_percentual" := percent.value], true;
    }
    if written {
      r := Success(Some(dados));
    } else {
      r := Failure(UndefinedVariable("dados"));
    }
  }

  // ----- extrairDadosTabela ----------------------------------------------------------

  /** A line the extractor skips as a header: `stripos` of one of three labels */
  predicate IsCommandHeader(l: string) {
    ContainsCI(l, "Cliente") || ContainsCI(l, "Primeira Venda") || ContainsCI(l, "Última Venda")
  }

  /** `$dadosLinha && !empty($dadosLinha['cliente'])` */
  predicate Kept(d: Option<Row>) {
    d.Some? && d.value != map[] && "cliente" in d.value && d.value["cliente"] != 0.0
  }

  /** `$dados[] = $dadosLinha` when the line is kept */
  function KeptRows(d: Option<Row>): (rows: seq<Row>)
    ensures |rows| <= 1
  {
    if Kept(d) then [d.value] else []
  }

  /** What one line of the text gives; a blank or header line gives nothing */
  function LineOutcome(raw: string): Result<Option<Row>, Crash> {
    var line := Trim(raw);
    if Empty(line) || IsCommandHeader(line) then Success(None) else CommandParse(line)
  }

  /** `f` applied to every element of `xs`, in order */
  function MapSeq<A, B>(f: A -> B, xs: seq<A>): (ys: seq<B>)
    ensures |ys| == |xs|
    ensures forall i :: 0 <= i < |xs| ==> ys[i] == f(xs[i])
    decreases |xs|
  {
    if xs == [] then []
    else
      var rest := MapSeq(f, xs[1..]);
      assert forall i :: 1 <= i < |xs| ==> xs[1..][i - 1] == xs[i];
      [f(xs[0])] + rest
  }

  /** The outcomes of the lines, in order */
  function Outcomes(lines: seq<string>): (outs: seq<Result<Option<Row>, Crash>>)
    ensures |outs| == |lines|
    ensures forall i :: 0 <= i < |lines| ==> outs[i] == LineOutcome(lines[i])
  {
    MapSeq(LineOutcome, lines)
  }

  /** The rows kept from the outcomes, in order, or the crash of the first line that crashes */
  function Collect(outs: seq<Result<Option<Row>, Crash>>): Result<seq<Row>, Crash>
  {
    if outs == [] then Success([])
    else match outs[0]
      case Failure(e) => Failure(e)
      case Success(d) =>
        match Collect(outs[1..])
        case Failure(e) => Failure(e)
        case Success(rest) => Success(KeptRows(d) + rest)
  }

  /** `extrairDadosTabela` on the whole text */
  function CommandExtract(text: string): Result<seq<Row>, Crash> {
    Collect(Outcomes(Explode(text, '\n')))
  }

  /** Rows already kept in front of what the remaining lines give */
  function Prepend(dados: seq<Row>, r: Result<seq<Row>, Crash>): Result<seq<Row>, Crash> {
    match r
    case Failure(e) => Failure(e)
    case Success(rest) => Success(dados + rest)
  }

  /** The body of the extractor's loop up to the parse: trim, skip blank and header lines */
  method ParseRawLine(raw: string) returns (r: Result<Option<Row>, Crash>)
    ensures r == LineOutcome(raw)
  {
    var line := Trim(raw);
    if Empty(line) || IsCommandHeader(line) {
      return Success(None);
    }
    r := ParseCommandLine(line);
  }

  /** One line of the loop: a crash ends the run, otherwise the kept row is appended */
  lemma CollectStep(outs: seq<Result<Option<Row>, Crash>>, i: nat, dados: seq<Row>)
    requires i < |outs|
    ensures outs[i].Failure? ==> Prepend(dados, Collect(outs[i..])) == Failure(outs[i].error)
    ensures outs[i].Success? ==>
      Prepend(dados, Collect(outs[i..])) == Prepend(dados + KeptRows(outs[i].value), Collect(outs[i + 1..]))
  {
    assert outs[i..][1..] == outs[i + 1..] && outs[i..][0] == outs[i];
    var rest := Collect(outs[i + 1..]);
    if outs[i].Success? && rest.Success? {
      assert dados + KeptRows(outs[i].value) + rest.value == dados + (KeptRows(outs[i].value) + rest.value);
    }
  }

  /** The loop of `extrairDadosTabela` over the lines */
  method CollectLines(lines: seq<string>) returns (r: Result<seq<Row>, Crash>)
    ensures r == Collect(Outcomes(lines))
  {
    ghost var outs := Outcomes(lines);
    var dados: seq<Row> := [];
    assert outs[0..] == outs;
    assert Prepend([], Collect(outs)) == Collect(outs) by {
      if Collect(outs).Success? { assert [] + Collect(outs).value == Collect(outs).value; }
    }
    for i := 0 to |lines|
      invariant Collect(outs) == Prepend(dados, Collect(outs[i..]))
    {
      var dadosLinha := ParseRawLine(lines[i]);
      assert dadosLinha == outs[i];
      CollectStep(outs, i, dados);
      if dadosLinha.Failure? {
        return Failure(dadosLinha.error);
      }
      dados := dados + KeptRows(dadosLinha.value);
    }
    assert outs[|lines|..] == [];
    assert dados + [] == dados;
    r := Success(dados);
  }

  /** The imperative `extrairDadosTabela` */
  method ExtractCommandRows(text: string) returns (r: Result<seq<Row>, Crash>)
    ensures r == CommandExtract(text)
  {
    var lines := Explode(text, '\n');
    r := CollectLines(lines);
  }

  // ----- what the command does with real reports ----------------------------------------

  /** Outcomes none of which is kept give no rows */
  lemma {:induction false} CollectNothing(outs: seq<Result<Option<Row>, Crash>>)
    requires forall i :: 0 <= i < |outs| && outs[i].Success? ==> !Kept(outs[i].value)
    ensures Collect(outs).Success? ==> Collect(outs).value == []
    decreases |outs|
  {
    if outs != [] {
      CollectNothing(outs[1..]);
    }
  }

  /** The command creates no record: the extraction either crashes or finds no row */
  lemma CommandExtractsNothing(text: string)
    ensures CommandExtract(text).Success? ==> CommandExtract(text).value == []
  {
    var outs := Outcomes(Explode(text, '\n'));
    forall i | 0 <= i < |outs| && outs[i].Success?
      ensures !Kept(outs[i].value)
    {
    }
    CollectNothing(outs);
  }

  /** A position where a match of `pat` could start lies inside one of the matches found from `k` on */
  lemma {:induction false} CoveredFrom(pat: Pattern, s: string, ms: seq<Match>, q: nat, k: nat)
    requires IsScanOf(pat, s, ms, 0)
    requires k < |ms| && ms[k].start <= q && MatchEnd(pat, s, q).Some?
    ensures exists j :: k <= j < |ms| && ms[j].start <= q < ms[j].End()
    decreases |ms| - k
  {
    if q >= ms[k].End() {
      if k < |ms| - 1 && ms[k + 1].start <= q {
        CoveredFrom(pat, s, ms, q, k + 1);
      } else {
        assert false;
      }
    }
  }

  /** Every position where a match of `pat` could start lies inside one of the matches found */
  lemma Covered(pat: Pattern, s: string, ms: seq<Match>, q: nat) returns (j: nat)
    requires IsScanOf(pat, s, ms, 0) && MatchEnd(pat, s, q).Some?
    ensures j < |ms| && ms[j].start <= q < ms[j].End()
    ensures MatchEnd(pat, s, ms[j].start) == Some(ms[j].End())
  {
    if ms == [] || q < ms[0].start {
      assert false;
    }
    CoveredFrom(pat, s, ms, q, 0);
    j :| 0 <= j < |ms| && ms[j].start <= q < ms[j].End();
  }

  /** Number characters separated by a character no amount match spans lie in two different amount matches */
  lemma TwoAmounts(s: string, ms: seq<Match>, p: nat, j: nat, q: nat)
    requires IsScanOf(Money, s, ms, 0)
    requires p < j < q < |s| && IsNumChar(s[p]) && IsNumChar(s[q])
    requires !IsNumChar(s[j]) && !IsMoneyMark(s[j])
    ensures |ms| >= 2
  {
    NumCharStartsAmount(s, p);
    NumCharStartsAmount(s, q);
    var a := Covered(Money, s, ms, p);
    var b := Covered(Money, s, ms, q);
    if a == b {
      MoneySpanChars(s, ms[a].start, ms[a].End());
      assert false;
    }
  }

  /** A number character starts an amount match */
  lemma NumCharStartsAmount(s: string, p: nat)
    requires p < |s| && IsNumChar(s[p])
    ensures MatchEnd(Money, s, p).Some?
  {
    assert SkipSpaces(s, p) == p;
  }

  /** The month and the year of a strict date at `p`, with the slash between them */
  lemma DateDigits(l: string, p: nat)
    requires DateEnd(l, p, true).Some?
    ensures p + 6 < |l| && IsNumChar(l[p + 3]) && l[p + 5] == '/' && IsNumChar(l[p + 6])
  {
    assert DayMonthEnd(l, p, true) == Some(p + 3);
    assert DayMonthEnd(l, p + 3, true) == Some(p + 6);
    assert l[p + 6..p + 10][0] == l[p + 6];
  }

  /** The first date match of a scan starts a date */
  lemma FirstDateAt(l: string, ds: seq<Match>)
    requires IsScanOf(StrictDate, l, ds, 0) && ds != []
    ensures DateEnd(l, ds[0].start, true).Some?
  {
    assert Genuine(StrictDate, l, ds[0]);
  }

  /** A date on the line brings two amount matches (its month and its year) */
  lemma DateGivesTwoAmounts(l: string, p: nat, ms: seq<Match>)
    requires DateEnd(l, p, true).Some?
    requires IsScanOf(Money, l, ms, 0)
    ensures |ms| >= 2
  {
    DateDigits(l, p);
    assert l[p + 5] == '/';
    TwoAmounts(l, ms, p + 3, p + 5, p + 6);
  }

  /** Every line with a customer and a date, as every data line of a report has, stops the command */
  lemma DateLineCrashes(line: string)
    requires var l := Collapse(Trim(line));
      Matches(StrictDate, l) != [] && !Empty(CommandCustomer(l)) && Utf8Length(CommandCustomer(l)) >= 2
    ensures CommandParse(line) == Failure(UndefinedMethod("converterInteiro"))
  {
    var l := Collapse(Trim(line));
    var ds := Matches(StrictDate, l);
    FirstDateAt(l, ds);
    DateGivesTwoAmounts(l, ds[0].start, Matches(Money, l));
  }

  /** Collapsing and trimming add no number character */
  lemma CollapsedNoNumbers(line: string)
    requires forall k :: 0 <= k < |line| ==> !IsNumChar(line[k])
    ensures var l := Collapse(Trim(line)); forall k :: 0 <= k < |l| ==> !IsNumChar(l[k])
  {
    var t := Trim(line);
    assert forall k :: 0 <= k < |t| ==> !IsNumChar(t[k]);
  }

  /** Text without number characters holds no date, no amount and no percentage */
  lemma NoNumbersNoMatches(l: string)
    requires forall k :: 0 <= k < |l| ==> !IsNumChar(l[k])
    ensures Matches(StrictDate, l) == [] && Matches(Money, l) == [] && Matches(TightPercent, l) == []
  {
    var ds := Matches(StrictDate, l);
    if ds != [] {
      FirstDateAt(l, ds);
      DateDigits(l, ds[0].start);
      assert false;
    }
    var money := Matches(Money, l);
    if money != [] {
      assert Genuine(Money, l, money[0]);
      MoneySpanChars(l, money[0].start, money[0].End());
      assert false;
    }
    var percent := Matches(TightPercent, l);
    if percent != [] {
      assert false;
    }
  }

  /**
   * A line without digits, points or commas gives no row: its customer is the
   * whole line, and when that is long enough the parser returns `$dados`,
   * which nothing wrote, so the run fails ("Sennacar Comercio Ltda" does).
   */
  lemma NoNumbersNoRow(line: string)
    requires forall k :: 0 <= k < |line| ==> !IsNumChar(line[k])
    ensures var l := Collapse(Trim(line));
      && CommandCustomer(l) == Trim(l)
      && CommandParse(line) == (if Empty(Trim(l)) || Utf8Length(Trim(l)) < 2 then Success(None) else Failure(UndefinedVariable("dados")))
  {
    var l := Collapse(Trim(line));
    CollapsedNoNumbers(line);
    NoNumbersNoMatches(l);
    assert FirstPercent(l).None?;
    assert Values(Matches(Money, l)) == [];
  }

  // ----- as evidently intended --------------------------------------------------------------

  /** The array `$dadosCliente` the parser builds and evidently meant to fill and return */
  datatype CommandRecord = CommandRecord(
    cliente: string,
    primeiraVenda: Option<string>,
    ultimaVenda: Option<string>,
    vlVndMedio: Option<real>,
    qtd: Option<int>,
    totalVenda: Option<real>,
    custoVenda: Option<real>,
    totalDevolucao: Option<real>,
    custoDev: Option<real>,
    total: Option<real>,
    totalCusto: Option<real>,
    lucroReais: Option<real>,
    lucroPercentual: Option<real>)

  /** `$valores[i]` when there are more than `i` amounts */
  function At(vs: seq<real>, i: nat): (r: Option<real>)
    ensures r.Some? <==> i < |vs|
  {
    if i < |vs| then Some(vs[i]) else None
  }

  /** The `i`-th date of the line through `converterData` (`brDate` stands for `DateTime::createFromFormat`) */
  function DateAt(ds: seq<Match>, i: nat, brDate: string -> Option<string>): Option<string> {
    if i < |ds| then brDate(ds[i].text) else None
  }

  /**
   * `parsearLinhaDados` writing into `$dadosCliente`, which it returns: the
   * customer, the first two dates, the amounts in their ten positions with the
   * second read as an integer (truncated, as `intval` does), and the first
   * percentage in place of the tenth amount.
   */
  function FixedCommandParse(line: string, brDate: string -> Option<string>): (r: Option<CommandRecord>)
    ensures var cliente := CommandCustomer(Collapse(Trim(line)));
      && (r.Some? <==> !Empty(cliente) && Utf8Length(cliente) >= 2)
      && (r.Some? ==> r.value.cliente == cliente)
  {
    var l := Collapse(Trim(line));
    var cliente := CommandCustomer(l);
    if Empty(cliente) || Utf8Length(cliente) < 2 then None
    else
      var ds := Matches(StrictDate, l);
      var vs := Values(Matches(Money, l));
      var percent := FirstPercent(l);
      Some(CommandRecord(
        cliente, DateAt(ds, 0, brDate), DateAt(ds, 1, brDate),
        At(vs, 0), if |vs| >= 2 then Some(Trunc(vs[1])) else None,
        At(vs, 2), At(vs, 3), At(vs, 4), At(vs, 5), At(vs, 6), At(vs, 7), At(vs, 8),
        if percent.Some? then percent else At(vs, 9)))
  }

  /** The corrected record holds neither an amount nor a percentage: the array as written would stay unwritten */
  predicate NoValues(d: CommandRecord) { d.vlVndMedio.None? && d.lucroPercentual.None? }

  /**
   * The command as written stops on a line exactly when the corrected parser
   * would give that line a record with a quantity (the call of the undefined
   * `converterInteiro`) or a record with no value at all (the read of the
   * unwritten `$dados`).
   */
  lemma CrashIffQuantity(line: string, brDate: string -> Option<string>)
    ensures var d := FixedCommandParse(line, brDate);
      && (CommandParse(line) == Failure(UndefinedMethod("converterInteiro")) <==> d.Some? && d.value.qtd.Some?)
      && (CommandParse(line) == Failure(UndefinedVariable("dados")) <==> d.Some? && NoValues(d.value))
      && (CommandParse(line).Failure? <==> d.Some? && (d.value.qtd.Some? || NoValues(d.value)))
  {
  }

  /**
   * Where the command as written returns an array, its two entries are the
   * ones the corrected record holds; only the customer and the dates are lost.
   */
  lemma WrittenValuesAgree(line: string, brDate: string -> Option<string>)
    requires CommandParse(line).Success? && CommandParse(line).value.Some?
    ensures var row := CommandParse(line).value.value; var d := FixedCommandParse(line, brDate);
      && d.Some? && d.value.qtd.None? && !NoValues(d.value)
      && ("vl_vnd_medio" in row ==> d.value.vlVndMedio == Some(row["vl_vnd_medio"]))
      && ("lucro_percentual" in row ==> d.value.lucroPercentual == Some(row["lucro_percentual"]))
  {
  }

  /** A data line with a customer and a date, which stops the command as written, gives a full record */
  lemma DateLineRecorded(line: string, brDate: string -> Option<string>)
    requires var l := Collapse(Trim(line));
      Matches(StrictDate, l) != [] && !Empty(CommandCustomer(l)) && Utf8Length(CommandCustomer(l)) >= 2
    ensures var l := Collapse(Trim(line)); var d := FixedCommandParse(line, brDate);
      && d.Some? && d.value.cliente == CommandCustomer(l)
      && d.value.primeiraVenda == brDate(Matches(StrictDate, l)[0].text)
      && d.value.qtd.Some?
  {
    DateLineCrashes(line);
    CrashIffQuantity(line, brDate);
  }

  /** What one line of the text adds to the corrected extractor's list: its record, if its customer is not empty */
  function FixedLineRows(raw: string, brDate: string -> Option<string>): (rows: seq<CommandRecord>)
    ensures |rows| <= 1
  {
    var line := Trim(raw);
    if Empty(line) || IsCommandHeader(line) then []
    else match FixedCommandParse(line, brDate)
      case Some(d) => if !Empty(d.cliente) then [d] else []
      case None => []
  }

  /** `extrairDadosTabela` keeping the corrected records, in line order */
  function FixedCommandRows(lines: seq<string>, brDate: string -> Option<string>): seq<CommandRecord>
    decreases |lines|
  {
    if lines == [] then [] else FixedLineRows(lines[0], brDate) + FixedCommandRows(lines[1..], brDate)
  }

  function FixedCommandExtract(text: string, brDate: string -> Option<string>): seq<CommandRecord> {
    FixedCommandRows(Explode(text, '\n'), brDate)
  }

  /** A record a line adds has a customer of at least two bytes */
  lemma FixedLineCustomer(raw: string, brDate: string -> Option<string>)
    ensures forall d :: d in FixedLineRows(raw, brDate) ==> !Empty(d.cliente) && Utf8Length(d.cliente) >= 2
  {
    var line := Trim(raw);
    if !Empty(line) && !IsCommandHeader(line) {
      var d := FixedCommandParse(line, brDate);
      assert FixedLineRows(raw, brDate) == (if d.Some? && !Empty(d.value.cliente) then [d.value] else []);
    }
  }

  /** Every record of the corrected command has a customer of at least two bytes */
  lemma {:induction false} FixedRowsHaveCustomers(lines: seq<string>, brDate: string -> Option<string>)
    ensures forall d :: d in FixedCommandRows(lines, brDate) ==> !Empty(d.cliente) && Utf8Length(d.cliente) >= 2
    decreases |lines|
  {
    if lines != [] {
      FixedRowsHaveCustomers(lines[1..], brDate);
      FixedLineCustomer(lines[0], brDate);
    }
  }

  /** The outcomes of a non-empty list of lines: the first line's, then the rest's */
  lemma OutcomesCons(lines: seq<string>)
    requires lines != []
    ensures Outcomes(lines)[0] == LineOutcome(lines[0]) && Outcomes(lines)[1..] == Outcomes(lines[1..])
  {
    assert MapSeq(LineOutcome, lines) == [LineOutcome(lines[0])] + MapSeq(LineOutcome, lines[1..]);
  }

  /**
   * The command as written fails on a text exactly when the corrected command
   * would store from it a record with a quantity or a record with no value.
   */
  lemma {:induction false} CollectFailsIffQuantity(lines: seq<string>, brDate: string -> Option<string>)
    ensures Collect(Outcomes(lines)).Failure? <==> exists d :: d in FixedCommandRows(lines, brDate) && (d.qtd.Some? || NoValues(d))
    decreases |lines|
  {
    if lines != [] {
      var outs := Outcomes(lines);
      OutcomesCons(lines);
      CollectFailsIffQuantity(lines[1..], brDate);
      LineFailsIffQuantity(lines[0], brDate);
      var here := FixedLineRows(lines[0], brDate);
      var rest := FixedCommandRows(lines[1..], brDate);
      assert FixedCommandRows(lines, brDate) == here + rest;
      assert Collect(outs).Failure? <==> outs[0].Failure? || Collect(outs[1..]).Failure?;
    }
  }

  /** One line: the command as written fails on it exactly when the corrected line adds a record with a quantity or with no value */
  lemma LineFailsIffQuantity(raw: string, brDate: string -> Option<string>)
    ensures LineOutcome(raw).Failure? <==> exists d :: d in FixedLineRows(raw, brDate) && (d.qtd.Some? || NoValues(d))
  {
    var line := Trim(raw);
    if !Empty(line) && !IsCommandHeader(line) {
      assert LineOutcome(raw) == CommandParse(line);
      CrashIffQuantity(line, brDate);
      var d := FixedCommandParse(line, brDate);
      assert FixedLineRows(raw, brDate) == (if d.Some? && !Empty(d.value.cliente) then [d.value] else []);
    }
  }

  /** On a whole text: the command fails exactly where a quantity, or a record with no value, would have been stored */
  lemma CommandFailsIffQuantity(text: string, brDate: string -> Option<string>)
    ensures CommandExtract(text).Failure? <==> exists d :: d in FixedCommandExtract(text, brDate) && (d.qtd.Some? || NoValues(d))
  {
    CollectFailsIffQuantity(Explode(text, '\n'), brDate);
  }

  /** The body of the corrected extractor's loop: trim, skip, parse, keep */
  method FixedLineStep(raw: string, brDate: string -> Option<string>) returns (rows: seq<CommandRecord>)
    ensures rows == FixedLineRows(raw, brDate)
  {
    var line := Trim(raw);
    if Empty(line) || IsCommandHeader(line) {
      return [];
    }
    var dadosLinha := FixedCommandParse(line, brDate);
    if dadosLinha.Some? && !Empty(dadosLinha.value.cliente) {
      rows := [dadosLinha.value];
    } else {
      rows := [];
    }
  }

  /** One line of the corrected loop: its rows join the list, the remaining lines follow */
  lemma FixedRowsStep(lines: seq<string>, i: nat, dados: seq<CommandRecord>, brDate: string -> Option<string>)
    requires i < |lines|
    ensures dados + FixedCommandRows(lines[i..], brDate) == (dados + FixedLineRows(lines[i], brDate)) + FixedCommandRows(lines[i + 1..], brDate)
  {
    assert lines[i..][0] == lines[i] && lines[i..][1..] == lines[i + 1..];
  }

  /** The corrected extractor's loop */
  method ExtractCommandRowsFixed(text: string, brDate: string -> Option<string>) returns (dados: seq<CommandRecord>)
    ensures dados == FixedCommandExtract(text, brDate)
  {
    dados := [];
    var lines := Explode(text, '\n');
    for i := 0 to |lines|
      invariant FixedCommandRows(lines, brDate) == dados + FixedCommandRows(lines[i..], brDate)
    {
      var rows := FixedLineStep(lines[i], brDate);
      FixedRowsStep(lines, i, dados, brDate);
      dados := dados + rows;
    }
    assert lines[|lines|..] == [];
  }
}
