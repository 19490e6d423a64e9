/**
 * The record parser of the text-report importer
 * (`parsearLinhaPlanilhaComMapeamento`): one reassembled report row becomes a
 * customer sales record. The customer is the text before the first number
 * character; the first two dates are the first and last sale; signed numbers
 * outside the dates and the percentage are converted, negatives are taken as
 * returns first, then a fixed positional table fills the remaining fields.
 */
module ReportParser {
  import opened Wrappers
  import opened Text
  import opened Numeric
  import opened Scan
  import opened Converters
  import opened ReportLines

  /** The record the parser builds; `None` is PHP `null` */
  datatype SalesRecord = SalesRecord(
    cliente: string,
    primeiraVenda: Option<string>,
    ultimaVenda: Option<string>,
    vlVndMedio: Option<real>,
    qtd: Option<int>,
    totalVenda: Option<real>,
    custoVenda: Option<real>,
    totalDevolucao: Option<real>,
    custoDev: Option<real>,
    total: Option<real>,
    totalCusto: Option<real>,
    lucroReais: Option<real>,
    lucroPercentual: Option<real>)

  /** `$a ?? $v` */
  function Coalesce<T>(a: Option<T>, v: T): (r: Option<T>)
    ensures r.Some? && (a.Some? ==> r == a) && (a.None? ==> r.value == v)
  {
    if a.Some? then a else Some(v)
  }

  /** `$valores[$i]` when it is set */
  function At(vals: seq<real>, i: nat): (r: Option<real>)
    ensures r.Some? <==> i < |vals|
    ensures r.Some? ==> r.value == vals[i]
  {
    if i < |vals| then Some(vals[i]) else None
  }

  // ----- customer ---------------------------------------------------------------

  /** The boundary of the customer: the earlier of the first date and the first number */
  function ClientEnd(dates: seq<Match>, nums: seq<Match>): Option<nat>
  {
    if dates != [] && nums != [] then Some(if dates[0].start <= nums[0].start then dates[0].start else nums[0].start)
    else if dates != [] then Some(dates[0].start)
    else if nums != [] then Some(nums[0].start)
    else None
  }

  /** The first part that, trimmed, is a valid customer name */
  function FirstValidName(parts: seq<string>, i: nat): (r: Option<string>)
    requires i <= |parts|
    ensures r.Some? ==> IsValidClientName(r.value)
    ensures r.Some? ==> exists j :: i <= j < |parts| && r.value == Trim(parts[j])
    decreases |parts| - i
  {
    if i == |parts| then None
    else if IsValidClientName(Trim(parts[i])) then
      TrimIdempotent(parts[i]);
      Some(Trim(parts[i]))
    else FirstValidName(parts, i + 1)
  }

  /** Runs of two or more blanks or tabs, falling back to single blanks when that gives fewer than 3 parts */
  function FallbackParts(line: string): (parts: seq<string>)
    ensures forall p :: 0 <= p < |parts| ==> forall k :: 0 <= k < |parts[p]| ==> parts[p][k] in line
  {
    var wide := Split(WideBlanks, line);
    if |wide| < 3 then Split(Blanks, line) else wide
  }

  /** The customer of a trimmed row, before the PHP-falsy check */
  function CustomerOf(line: string): Option<string>
  {
    match ClientEnd(Matches(Date, line), Matches(Run, line))
    case Some(e) => Some(Collapse(Trim(line[..e])))
    case None => FirstValidName(FallbackParts(line), 0)
  }

  // ----- numbers ------------------------------------------------------------------

  predicate InSpan(pos: nat, m: Match) { m.start <= pos < m.End() }

  /** `$pos` falls inside one of the date ranges */
  predicate InAnyDate(pos: nat, dates: seq<Match>) { exists k :: 0 <= k < |dates| && InSpan(pos, dates[k]) }

  /** A number is skipped when it starts inside a date or inside the first percentage */
  predicate Excluded(pos: nat, dates: seq<Match>, pct: Option<Match>) {
    InAnyDate(pos, dates) || (pct.Some? && InSpan(pos, pct.value))
  }

  /** The converted values of the signed numbers that are not skipped, in order, nulls dropped */
  function KeptValues(ms: seq<Match>, dates: seq<Match>, pct: Option<Match>): seq<real>
  {
    if ms == [] then []
    else
      var prev := KeptValues(ms[..|ms| - 1], dates, pct);
      var m := ms[|ms| - 1];
      if Excluded(m.start, dates, pct) then prev
      else match ConvertDecimal(m.text)
        case None => prev
        case Some(v) => prev + [v]
  }

  /** `array_values(array_filter($valores, fn($v) => $v < 0))` */
  function Negatives(vals: seq<real>): (neg: seq<real>)
    ensures forall k :: 0 <= k < |neg| ==> neg[k] < 0.0
    ensures |neg| <= |vals|
  {
    if vals == [] then []
    else
      var prev := Negatives(vals[..|vals| - 1]);
      if vals[|vals| - 1] < 0.0 then prev + [vals[|vals| - 1]] else prev
  }

  /** A value list without negatives holds no negative value */
  lemma {:induction false} NoNegativesMeansNonNegative(vals: seq<real>)
    requires Negatives(vals) == []
    ensures forall k :: 0 <= k < |vals| ==> vals[k] >= 0.0
    decreases |vals|
  {
    if vals != [] {
      NoNegativesMeansNonNegative(vals[..|vals| - 1]);
      assert forall k :: 0 <= k < |vals| - 1 ==> vals[k] == vals[..|vals| - 1][k];
    }
  }

  // ----- the record ------------------------------------------------------------------

  /** The fields no step has filled yet */
  predicate Unfilled(d: SalesRecord) {
    && d.vlVndMedio.None? && d.qtd.None? && d.totalVenda.None? && d.custoVenda.None?
    && d.totalDevolucao.None? && d.custoDev.None? && d.total.None? && d.totalCusto.None? && d.lucroReais.None?
  }

  /**
   * Negatives first (returns and their cost, as absolute values), then the
   * fixed positional table, which never overwrites a field already set.
   */
  function ApplyTable(d: SalesRecord, vals: seq<real>): (r: SalesRecord)
    requires Unfilled(d)
    ensures r.cliente == d.cliente && r.primeiraVenda == d.primeiraVenda && r.ultimaVenda == d.ultimaVenda
    ensures var neg := Negatives(vals);
      && r.totalDevolucao == (if |neg| >= 1 then Some(Abs(neg[0])) else At(vals, 9))
      && r.custoDev == (if |neg| >= 2 then Some(Abs(neg[1])) else At(vals, 2))
    ensures r.lucroReais == At(vals, 0) && r.total == At(vals, 3) && r.totalCusto == At(vals, 4)
    ensures r.vlVndMedio == At(vals, 5) && r.totalVenda == At(vals, 7) && r.custoVenda == At(vals, 8)
    ensures r.qtd == (if |vals| >= 7 then Some(Trunc(vals[6])) else None)
    ensures r.lucroPercentual == (if d.lucroPercentual.Some? then d.lucroPercentual else At(vals, 10))
  {
    var neg := Negatives(vals);
    var d1 := if |neg| >= 1 then d.(totalDevolucao := Some(Abs(neg[0]))) else d;
    var d2 := if |neg| >= 2 then d1.(custoDev := Some(Abs(neg[1]))) else d1;
    var d3 := if |vals| >= 1 then d2.(lucroReais := Coalesce(d2.lucroReais, vals[0])) else d2;
    var d4 := if |vals| >= 3 && d3.custoDev.None? then d3.(custoDev := Some(vals[2])) else d3;
    var d5 := if |vals| >= 4 then d4.(total := Coalesce(d4.total, vals[3])) else d4;
    var d6 := if |vals| >= 5 then d5.(totalCusto := Coalesce(d5.totalCusto, vals[4])) else d5;
    var d7 := if |vals| >= 6 then d6.(vlVndMedio := Coalesce(d6.vlVndMedio, vals[5])) else d6;
    var d8 := if |vals| >= 7 then d7.(qtd := Coalesce(d7.qtd, Trunc(vals[6]))) else d7;
    var d9 := if |vals| >= 8 then d8.(totalVenda := Coalesce(d8.totalVenda, vals[7])) else d8;
    var d10 := if |vals| >= 9 then d9.(custoVenda := Coalesce(d9.custoVenda, vals[8])) else d9;
    var d11 := if |vals| >= 10 && d10.totalDevolucao.None? then d10.(totalDevolucao := Some(vals[9])) else d10;
    if |vals| >= 11 then d11.(lucroPercentual := Coalesce(d11.lucroPercentual, vals[10])) else d11
  }

  /** The first percentage of the row, '%' removed, through `converterDecimal` */
  function PercentOf(pct: Option<Match>): Option<real> {
    if pct.Some? then ConvertDecimal(ReplaceAll(pct.value.text, "%", "")) else None
  }

  /** The record before the numbers are placed: customer, the first two dates, the percentage */
  function Initial(cliente: string, dates: seq<Match>, pct: Option<Match>): (d: SalesRecord)
    ensures Unfilled(d)
  {
    SalesRecord(
      cliente,
      if |dates| >= 1 then ConvertDate(dates[0].text) else None,
      if |dates| >= 2 then ConvertDate(dates[1].text) else None,
      None, None, None, None, None, None, None, None, None,
      PercentOf(pct))
  }

  /**
   * `parsearLinhaPlanilhaComMapeamento` as a function of the row: `None` when
   * the customer is missing or PHP-falsy, otherwise the filled record. The
   * column mapping it is handed is never read, so it is not a parameter.
   */
  function ParseRecord(raw: string): Option<SalesRecord>
  {
    var line := Trim(raw);
    match CustomerOf(line)
    case None => None
    case Some(c) =>
      if Empty(c) then None
      else
        var dates := Matches(Date, line);
        var pct := First(Percent, line);
        Some(ApplyTable(Initial(c, dates, pct), KeptValues(Matches(Signed, line), dates, pct)))
  }

  // ----- the parser as the PHP runs it ---------------------------------------------------

  /** The fallback loop: the first part whose trimmed text is a valid name */
  method FindFallbackCustomer(parts: seq<string>) returns (cliente: Option<string>)
    ensures cliente == FirstValidName(parts, 0)
  {
    cliente := None;
    var i := 0;
    while i < |parts|
      invariant 0 <= i <= |parts|
      invariant FirstValidName(parts, 0) == FirstValidName(parts, i)
    {
      var possibleClient := Trim(parts[i]);
      if IsValidClientName(possibleClient) {
        cliente := Some(possibleClient);
        return;
      }
      i := i + 1;
    }
  }

  /** The inner `foreach ($dateRanges ...)` with its `break` */
  method StartsInDate(pos: nat, dateRanges: seq<(nat, nat)>) returns (inDate: bool)
    ensures inDate <==> exists k :: 0 <= k < |dateRanges| && dateRanges[k].0 <= pos < dateRanges[k].1
  {
    inDate := false;
    var k := 0;
    while k < |dateRanges|
      invariant 0 <= k <= |dateRanges|
      invariant forall j :: 0 <= j < k ==> !(dateRanges[j].0 <= pos < dateRanges[j].1)
    {
      if pos >= dateRanges[k].0 && pos < dateRanges[k].1 {
        inDate := true;
        return;
      }
      k := k + 1;
    }
  }

  /** The date ranges of the matches, as the PHP collects them */
  function Ranges(dates: seq<Match>): (rs: seq<(nat, nat)>)
    ensures |rs| == |dates|
    ensures forall k :: 0 <= k < |dates| ==> rs[k] == (dates[k].start, dates[k].End())
  {
    seq(|dates|, k requires 0 <= k < |dates| => (dates[k].start, dates[k].End()))
  }

  /** The customer as lines 508-533 find it: the prefix before the first number, or the fallback search */
  method FindCustomer(line: string) returns (cliente: Option<string>)
    ensures cliente == CustomerOf(line)
  {
    var dateMatches := Matches(Date, line);
    var numMatches := Matches(Run, line);
    var clientEnd := ClientEnd(dateMatches, numMatches);
    if clientEnd.Some? {
      cliente := Some(Collapse(Trim(line[..clientEnd.value])));
    } else {
      var parts := Split(WideBlanks, line);
      if |parts| < 3 {
        parts := Split(Blanks, line);
      }
      cliente := FindFallbackCustomer(parts);
    }
  }

  /** The `$dateRanges` loop */
  method CollectRanges(dateMatches: seq<Match>) returns (dateRanges: seq<(nat, nat)>)
    ensures dateRanges == Ranges(dateMatches)
  {
    dateRanges := [];
    var d := 0;
    while d < |dateMatches|
      invariant 0 <= d <= |dateMatches|
      invariant |dateRanges| == d
      invariant forall k :: 0 <= k < d ==> dateRanges[k] == (dateMatches[k].start, dateMatches[k].End())
    {
      var start := dateMatches[d].start;
      dateRanges := dateRanges + [(start, start + |dateMatches[d].text|)];
      d := d + 1;
    }
  }

  /** The numbers loop: skip numbers starting in a date or in the percentage, keep the converted rest */
  method CollectValues(numbers: seq<Match>, dateMatches: seq<Match>, dateRanges: seq<(nat, nat)>, pm: Option<Match>)
    returns (valores: seq<real>)
    requires dateRanges == Ranges(dateMatches)
    ensures valores == KeptValues(numbers, dateMatches, pm)
  {
    valores := [];
    for n := 0 to |numbers|
      invariant valores == KeptValues(numbers[..n], dateMatches, pm)
    {
      valores := KeepNumber(valores, numbers, n, dateMatches, dateRanges, pm);
    }
    assert numbers[..|numbers|] == numbers;
  }

  /** The body of the numbers loop for number `n`: skip it or append its converted value */
  method KeepNumber(valores: seq<real>, numbers: seq<Match>, n: nat, dateMatches: seq<Match>, dateRanges: seq<(nat, nat)>, pm: Option<Match>)
    returns (valores': seq<real>)
    requires n < |numbers| && dateRanges == Ranges(dateMatches)
    requires valores == KeptValues(numbers[..n], dateMatches, pm)
    ensures valores' == KeptValues(numbers[..n + 1], dateMatches, pm)
  {
    valores' := valores;
    var pos := numbers[n].start;
    assert numbers[..n + 1][..n] == numbers[..n];
    var inDate := StartsInDate(pos, dateRanges);
    InDateIsInAnyDate(pos, dateMatches, inDate);
    if !inDate && !(pm.Some? && pos >= pm.value.start && pos < pm.value.start + |pm.value.text|) {
      var valor := ConvertDecimal(numbers[n].text);
      if valor.Some? {
        valores' := valores' + [valor.value];
      }
    }
  }

  /** The range test of the numbers loop agrees with `InAnyDate` */
  lemma InDateIsInAnyDate(pos: nat, dates: seq<Match>, inDate: bool)
    requires inDate <==> exists k :: 0 <= k < |Ranges(dates)| && Ranges(dates)[k].0 <= pos < Ranges(dates)[k].1
    ensures inDate <==> InAnyDate(pos, dates)
  {
    var rs := Ranges(dates);
    if inDate {
      var k :| 0 <= k < |rs| && rs[k].0 <= pos < rs[k].1;
      assert InSpan(pos, dates[k]);
    }
    if InAnyDate(pos, dates) {
      var k :| 0 <= k < |dates| && InSpan(pos, dates[k]);
      assert rs[k].0 <= pos < rs[k].1;
    }
  }

  /** The parser step by step; it computes exactly `ParseRecord` */
  method ParseLine(raw: string) returns (r: Option<SalesRecord>)
    ensures r == ParseRecord(raw)
  {
    var line := Trim(raw);
    var cliente := FindCustomer(line);
    if cliente.None? || Empty(cliente.value) {
      return None;
    }
    var dateMatches := Matches(Date, line);

    var dados := SalesRecord(cliente.value, None, None, None, None, None, None, None, None, None, None, None, None);
    if |dateMatches| >= 1 {
      dados := dados.(primeiraVenda := ConvertDate(dateMatches[0].text));
    }
    if |dateMatches| >= 2 {
      dados := dados.(ultimaVenda := ConvertDate(dateMatches[1].text));
    }
    var dateRanges := CollectRanges(dateMatches);

    var pm := First(Percent, line);
    if pm.Some? {
      dados := dados.(lucroPercentual := ConvertDecimal(ReplaceAll(pm.value.text, "%", "")));
    }
    assert dados == Initial(cliente.value, dateMatches, pm);

    var valores := CollectValues(Matches(Signed, line), dateMatches, dateRanges, pm);
    r := Some(ApplyTable(dados, valores));
  }

  // ----- what the parser promises ----------------------------------------------------------

  /**
   * The customer boundary is the first number character: a date starts with
   * a digit, so it can never come before the first `[\d.,]` run.
   */
  lemma ClientEndIsFirstNumChar(line: string)
    ensures ClientEnd(Matches(Date, line), Matches(Run, line)) == FirstNumChar(line, 0)
  {
    FirstRunIsFirstNumChar(line);
    var dates := Matches(Date, line);
    if dates != [] {
      var p := dates[0].start;
      DateStartsWithDigit(line, dates[0], false);
      assert IsNumChar(line[p]);
      assert FirstNumChar(line, 0).Some? && FirstNumChar(line, 0).value <= p;
    }
  }

  /** A customer taken before the first number character holds none */
  lemma PrefixCustomerHasNoNumChar(line: string, e: nat)
    requires e <= |line| && forall k :: 0 <= k < e ==> !IsNumChar(line[k])
    ensures var c := Collapse(Trim(line[..e])); forall k :: 0 <= k < |c| ==> !IsNumChar(c[k])
  {
    var pre := line[..e];
    assert forall k :: 0 <= k < |pre| ==> !IsNumChar(pre[k]);
    assert forall ch :: ch in Trim(pre) ==> ch in pre;
  }

  /** A fallback customer comes from a row without number characters, so it holds none either */
  lemma FallbackCustomerHasNoNumChar(line: string)
    requires forall k :: 0 <= k < |line| ==> !IsNumChar(line[k])
    requires FirstValidName(FallbackParts(line), 0).Some?
    ensures var c := FirstValidName(FallbackParts(line), 0).value; forall k :: 0 <= k < |c| ==> !IsNumChar(c[k])
  {
    var parts := FallbackParts(line);
    var c := FirstValidName(parts, 0).value;
    var j :| 0 <= j < |parts| && c == Trim(parts[j]);
    var part := parts[j];
    assert forall i :: 0 <= i < |part| ==> part[i] in line;
    forall k | 0 <= k < |c|
      ensures !IsNumChar(c[k])
    {
      assert c[k] in part;
      var i :| 0 <= i < |part| && part[i] == c[k];
      assert part[i] in line;
    }
  }

  /** Whatever way it is found, the customer holds no digit, '.' or ',' */
  lemma CustomerOfHasNoNumChar(line: string)
    requires CustomerOf(line).Some?
    ensures var c := CustomerOf(line).value; forall k :: 0 <= k < |c| ==> !IsNumChar(c[k])
  {
    ClientEndIsFirstNumChar(line);
    match FirstNumChar(line, 0)
    case Some(e) => PrefixCustomerHasNoNumChar(line, e);
    case None => FallbackCustomerHasNoNumChar(line);
  }

  /** The customer of a record is never empty and never holds a digit, '.' or ',' */
  lemma CustomerHasNoNumChar(raw: string)
    requires ParseRecord(raw).Some?
    ensures var c := ParseRecord(raw).value.cliente;
      && c != []
      && (forall k :: 0 <= k < |c| ==> !IsNumChar(c[k]))
  {
    var line := Trim(raw);
    CustomerOfHasNoNumChar(line);
    assert ParseRecord(raw).value.cliente == CustomerOf(line).value;
  }

  /** Returns are stored as absolute values, and without negatives position 9 is never negative */
  lemma TotalDevolucaoNonNegative(raw: string)
    requires ParseRecord(raw).Some? && ParseRecord(raw).value.totalDevolucao.Some?
    ensures ParseRecord(raw).value.totalDevolucao.value >= 0.0
  {
    var line := Trim(raw);
    var dates := Matches(Date, line);
    var pct := First(Percent, line);
    var vals := KeptValues(Matches(Signed, line), dates, pct);
    if Negatives(vals) == [] {
      NoNegativesMeansNonNegative(vals);
    }
  }

  /**
   * The cost of returns is not protected the same way: with a single negative
   * value the positional fallback puts `$valores[2]` there, which may itself be
   * that negative value.
   */
  lemma CustoDevMayBeNegative()
    ensures ApplyTable(SalesRecord("ACME", None, None, None, None, None, None, None, None, None, None, None, None),
                       [1.0, 2.0, -3.0]).custoDev == Some(-3.0)
  {
    var vals := [1.0, 2.0, -3.0];
    assert vals[..2][..1] == [1.0] && vals[..1][..0] == [];
    assert Negatives(vals) == [-3.0];
  }

  /** A complete row never takes the fallback: its customer is the collapsed text before the first number */
  lemma CompleteRowCustomer(raw: string)
    requires IsComplete(Trim(raw))
    ensures var line := Trim(raw); var e := FirstNumChar(line, 0);
      e.Some? && CustomerOf(line) == Some(Collapse(Trim(line[..e.value])))
  {
    CompleteHasNumChar(Trim(raw));
    ClientEndIsFirstNumChar(Trim(raw));
  }
}
