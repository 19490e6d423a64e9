/**
 * The record parser and the line driver of the upload importer
 * (`PdfUploadResource`): each data line is split into fields, the first field
 * that looks like a name is the customer, and every other field is sorted
 * into a slot by its shape and its size. `DateTime::createFromFormat` is a
 * library call with its own overflow rules; it is a parameter here
 * (`brDate`, the text "d/m/Y" in, "Y-m-d" or nothing out). The driver as
 * written calls `validarDadosCliente`, which this class does not define; the
 * last part models the driver with the check evidently intended.
 */
module UploadParser {
  import opened Wrappers
  import opened Text
  import opened Numeric
  import opened Scan
  import opened Converters
  import opened UploadRows
  import opened UploadHeader
  import opened ReportLines

  /** The eleven keys of `$dados` */
  datatype UploadRecord = UploadRecord(
    cliente: string,
    primeiraVenda: Option<string>,
    ultimaVenda: Option<string>,
    valorVendaMedio: Option<real>,
    quantidadeTotalVenda: Option<int>,
    custoVendaTotal: Option<real>,
    totalDevolucao: Option<real>,
    custoDevTotal: Option<real>,
    totalCusto: Option<real>,
    lucroReais: Option<real>,
    lucroPercentual: Option<real>)

  /** The record before any value is read: every slot `null` */
  function Blank(cliente: string): UploadRecord {
    UploadRecord(cliente, None, None, None, None, None, None, None, None, None, None)
  }

  /** PHP truthiness of a date slot: `null`, "" and "0" are false */
  predicate DateSet(o: Option<string>) { o.Some? && !Empty(o.value) }

  /** PHP truthiness of an amount slot: `null` and 0 are false */
  predicate AmountSet(o: Option<real>) { o.Some? && o.value != 0.0 }

  /** `converterDataBrasil`: `null` for "" and "0", otherwise `brDate` of the trimmed text */
  function ConvertBrDate(v: string, brDate: string -> Option<string>): Option<string> {
    if Empty(v) then None else brDate(Trim(v))
  }

  /** `$` after a match ending at `e`: the end of `v`, or just before a final line feed */
  predicate EndsAt(v: string, e: nat) {
    e == |v| || (e + 1 == |v| && v[e] == '\n')
  }

  /** `^\d{1,2}\/\d{1,2}\/\d{4}$` */
  predicate IsExactDate(v: string) {
    match DateEnd(v, 0, false)
    case None => false
    case Some(e) => EndsAt(v, e)
  }

  /** `[\d,\.]+\s*%` anywhere in `v` */
  predicate HasPercent(v: string) { MatchesFrom(Percent, v, 0) }

  /** `^-?[\d,\.]+$` */
  predicate IsSignedAmount(v: string) {
    var a := if v != [] && v[0] == '-' then 1 else 0;
    a < |v| && IsNumChar(v[a]) && EndsAt(v, RunEnd(v, a))
  }

  /** The fields the loop passes over */
  predicate IsFiller(v: string) { Empty(v) || v == "-" || v == "0" || v == "0,00" }

  /** The slot a number goes to: negatives, then small integers, small values, large values */
  function Classify(d: UploadRecord, x: real): UploadRecord {
    if x < 0.0 then
      if !AmountSet(d.totalDevolucao) then d.(totalDevolucao := Some(-x))
      else if !AmountSet(d.custoDevTotal) then d.(custoDevTotal := Some(-x))
      else d
    else if x < 1000.0 && x == Trunc(x) as real then d.(quantidadeTotalVenda := Some(Trunc(x)))
    else if x < 1000.0 then d.(valorVendaMedio := Some(x))
    else if !AmountSet(d.custoVendaTotal) then d.(custoVendaTotal := Some(x))
    else if !AmountSet(d.totalCusto) then d.(totalCusto := Some(x))
    else if !AmountSet(d.lucroReais) then d.(lucroReais := Some(x))
    else d
  }

  /** What the shape of a trimmed field makes of it */
  datatype FieldKind =
    | Filler                          // "", "0", "-", "0,00": passed over
    | DateField                       // a date alone
    | PercentField                    // holds a percentage
    | AmountField(value: Option<real>) // a signed amount alone, with what `converterValor` makes of it
    | OtherField                      // anything else: ignored

  /** The tests of the value loop, in their order: filler, date, percentage, amount */
  function KindOf(v: string): FieldKind {
    if IsFiller(v) then Filler
    else if IsExactDate(v) then DateField
    else if HasPercent(v) then PercentField
    else if IsSignedAmount(v) then AmountField(ConvertValue(v))
    else OtherField
  }

  /** What a field of kind `k` and trimmed text `v` does to the record */
  function ApplyKind(d: UploadRecord, k: FieldKind, v: string, brDate: string -> Option<string>): UploadRecord {
    match k
    case DateField =>
      if !DateSet(d.primeiraVenda) then d.(primeiraVenda := ConvertBrDate(v, brDate))
      else if !DateSet(d.ultimaVenda) then d.(ultimaVenda := ConvertBrDate(v, brDate))
      else d
    case PercentField => d.(lucroPercentual := ConvertPercent(v))
    case AmountField(n) => if n.Some? then Classify(d, n.value) else d
    case _ => d
  }

  /** Every field, trimmed, with its kind */
  function Tagged(parts: seq<string>): (fs: seq<(FieldKind, string)>)
    ensures |fs| == |parts|
  {
    if parts == [] then []
    else
      var v := Trim(parts[|parts| - 1]);
      Tagged(parts[..|parts| - 1]) + [(KindOf(v), v)]
  }

  /** Field `j` of the tagged fields is field `j` of the line, trimmed, with its kind */
  lemma {:induction false} TaggedAt(parts: seq<string>, j: nat)
    requires j < |parts|
    ensures Tagged(parts)[j] == (KindOf(Trim(parts[j])), Trim(parts[j]))
    decreases |parts|
  {
    if j < |parts| - 1 {
      TaggedAt(parts[..|parts| - 1], j);
    }
  }

  /** The value loop after the first `n` tagged fields, the customer's field `skip` passed over */
  function Fill(d: UploadRecord, fs: seq<(FieldKind, string)>, skip: nat, n: nat, brDate: string -> Option<string>): UploadRecord
    requires n <= |fs|
  {
    if n == 0 then d
    else
      var prev := Fill(d, fs, skip, n - 1, brDate);
      if n - 1 == skip then prev else ApplyKind(prev, fs[n - 1].0, fs[n - 1].1, brDate)
  }

  /** Whether each field, trimmed, is accepted by `isValidClientName` */
  function NameFlags(parts: seq<string>): (flags: seq<bool>)
    ensures |flags| == |parts|
  {
    seq(|parts|, i requires 0 <= i < |parts| => IsUploadClientName(Trim(parts[i])))
  }

  /** The first index from `i` on whose flag is set */
  function FirstSet(flags: seq<bool>, i: nat): (r: Option<nat>)
    requires i <= |flags|
    ensures r.Some? ==> i <= r.value < |flags| && flags[r.value]
    ensures r.Some? ==> forall j :: i <= j < r.value ==> !flags[j]
    ensures r.None? ==> forall j :: i <= j < |flags| ==> !flags[j]
    decreases |flags| - i
  {
    if i == |flags| then None
    else if flags[i] then Some(i)
    else FirstSet(flags, i + 1)
  }

  /** The fields of a trimmed line: wide gaps and tabs first, single blanks when that gives fewer than three */
  function Fields(l: string): (parts: seq<string>) {
    var wide := Split(WideBlanks, l);
    if |wide| < 3 then Split(Blanks, l) else wide
  }

  /** `parsearLinhaPlanilhaComMapeamento` (its column mapping is never read) */
  function UploadParse(line: string, brDate: string -> Option<string>): Option<UploadRecord> {
    var parts := Fields(Trim(line));
    if |parts| < 3 then None
    else match FirstSet(NameFlags(parts), 0)
      case None => None
      case Some(ci) => Some(Fill(Blank(Trim(parts[ci])), Tagged(parts), ci, |parts|, brDate))
  }

  /**
   * `parsearLinhaPlanilhaComMapeamento`: split the trimmed line, find the
   * customer, then fill the record from the other fields.
   */
  method ParseUploadLine(line: string, brDate: string -> Option<string>) returns (r: Option<UploadRecord>)
    ensures r == UploadParse(line, brDate)
  {
    var l := Trim(line);
    var parts := Split(WideBlanks, l);
    if |parts| < 3 {
      parts := Split(Blanks, l);
    }
    if |parts| < 3 {
      return None;
    }
    var cliente, clienteIndex := FindUploadCustomer(parts);
    if cliente.None? {
      return None;
    }
    var dados := FillUploadRecord(cliente.value, parts, clienteIndex, brDate);
    return Some(dados);
  }

  /** The search for the customer: the first field `isValidClientName` accepts once trimmed */
  method FindUploadCustomer(parts: seq<string>) returns (cliente: Option<string>, clienteIndex: nat)
    ensures FirstSet(NameFlags(parts), 0).None? ==> cliente.None?
    ensures FirstSet(NameFlags(parts), 0).Some? ==>
      && cliente == Some(Trim(parts[FirstSet(NameFlags(parts), 0).value]))
      && clienteIndex == FirstSet(NameFlags(parts), 0).value
  {
    ghost var flags := NameFlags(parts);
    cliente := None;
    clienteIndex := 0;
    var i := 0;
    while i < |parts|
      invariant 0 <= i <= |parts|
      invariant FirstSet(flags, 0) == FirstSet(flags, i)
    {
      var possibleClient := Trim(parts[i]);
      assert flags[i] == IsUploadClientName(possibleClient);
      if IsUploadClientName(possibleClient) {
        cliente := Some(possibleClient);
        clienteIndex := i;
        return;
      }
      i := i + 1;
    }
  }

  /** The value loop: every field but the customer's, in order, each sorted into its slot */
  method FillUploadRecord(cliente: string, parts: seq<string>, clienteIndex: nat, brDate: string -> Option<string>)
    returns (dados: UploadRecord)
    ensures dados == Fill(Blank(cliente), Tagged(parts), clienteIndex, |parts|, brDate)
  {
    dados := Blank(cliente);
    var j := 0;
    while j < |parts|
      invariant j <= |parts|
      invariant dados == Fill(Blank(cliente), Tagged(parts), clienteIndex, j, brDate)
    {
      dados := StoreValue(cliente, dados, parts, clienteIndex, j, brDate);
      j := j + 1;
    }
    assert j == |parts|;
  }

  /** The body of the value loop for field `j`: pass over the customer's field, otherwise trim it, tell its kind, store it */
  method StoreValue(cliente: string, d: UploadRecord, parts: seq<string>, clienteIndex: nat, j: nat, brDate: string -> Option<string>)
    returns (dados: UploadRecord)
    requires j < |parts|
    requires d == Fill(Blank(cliente), Tagged(parts), clienteIndex, j, brDate)
    ensures dados == Fill(Blank(cliente), Tagged(parts), clienteIndex, j + 1, brDate)
  {
    if j == clienteIndex {
      FillSkips(Blank(cliente), Tagged(parts), clienteIndex, j, brDate);
      return d;
    }
    var value := Trim(parts[j]);
    dados := StoreField(d, KindOf(value), value, brDate);
    TaggedAt(parts, j);
    FillApplies(Blank(cliente), Tagged(parts), clienteIndex, j, brDate);
  }

  /** The customer's field is passed over */
  lemma FillSkips(d: UploadRecord, fs: seq<(FieldKind, string)>, skip: nat, j: nat, brDate: string -> Option<string>)
    requires j < |fs| && j == skip
    ensures Fill(d, fs, skip, j + 1, brDate) == Fill(d, fs, skip, j, brDate)
  {
  }

  /** Any other field is applied to the record so far */
  lemma FillApplies(d: UploadRecord, fs: seq<(FieldKind, string)>, skip: nat, j: nat, brDate: string -> Option<string>)
    requires j < |fs| && j != skip
    ensures Fill(d, fs, skip, j + 1, brDate) == ApplyKind(Fill(d, fs, skip, j, brDate), fs[j].0, fs[j].1, brDate)
  {
  }

  /** The body of the value loop for a field of kind `kind`: the slot tests of `$dados` */
  method StoreField(d: UploadRecord, kind: FieldKind, value: string, brDate: string -> Option<string>)
    returns (dados: UploadRecord)
    ensures dados == ApplyKind(d, kind, value, brDate)
  {
    dados := d;
    match kind
    case DateField =>
      if !DateSet(dados.primeiraVenda) {
        dados := dados.(primeiraVenda := ConvertBrDate(value, brDate));
      } else if !DateSet(dados.ultimaVenda) {
        dados := dados.(ultimaVenda := ConvertBrDate(value, brDate));
      }
    case PercentField =>
      dados := dados.(lucroPercentual := ConvertPercent(value));
    case AmountField(numericValue) =>
      if numericValue.Some? {
        var x := numericValue.value;
        if x < 0.0 {
          if !AmountSet(dados.totalDevolucao) {
            dados := dados.(totalDevolucao := Some(-x));
          } else if !AmountSet(dados.custoDevTotal) {
            dados := dados.(custoDevTotal := Some(-x));
          }
        } else if x < 1000.0 && x == Trunc(x) as real {
          dados := dados.(quantidadeTotalVenda := Some(Trunc(x)));
        } else if x < 1000.0 {
          dados := dados.(valorVendaMedio := Some(x));
        } else if !AmountSet(dados.custoVendaTotal) {
          dados := dados.(custoVendaTotal := Some(x));
        } else if !AmountSet(dados.totalCusto) {
          dados := dados.(totalCusto := Some(x));
        } else if !AmountSet(dados.lucroReais) {
          dados := dados.(lucroReais := Some(x));
        }
      }
    case _ =>
  }

  // ----- what the classifier keeps ------------------------------------------------------

  /**
   * The shape every parsed record has: refunds positive, quantity and average
   * below 1000, the three large amounts at least 1000 and filled in order, a
   * second refund only after a first, a last sale date only after a first.
   */
  predicate Good(d: UploadRecord) {
    && (d.totalDevolucao.Some? ==> d.totalDevolucao.value > 0.0)
    && (d.custoDevTotal.Some? ==> d.custoDevTotal.value > 0.0 && d.totalDevolucao.Some?)
    && (d.quantidadeTotalVenda.Some? ==> 0 <= d.quantidadeTotalVenda.value < 1000)
    && (d.valorVendaMedio.Some? ==> 0.0 < d.valorVendaMedio.value < 1000.0)
    && (d.custoVendaTotal.Some? ==> d.custoVendaTotal.value >= 1000.0)
    && (d.totalCusto.Some? ==> d.totalCusto.value >= 1000.0 && d.custoVendaTotal.Some?)
    && (d.lucroReais.Some? ==> d.lucroReais.value >= 1000.0 && d.totalCusto.Some?)
    && (d.ultimaVenda.Some? ==> DateSet(d.primeiraVenda))
  }

  /** `e` keeps the customer and every first-come slot that was already set in `d` */
  predicate Keeps(d: UploadRecord, e: UploadRecord) {
    && e.cliente == d.cliente
    && (DateSet(d.primeiraVenda) ==> e.primeiraVenda == d.primeiraVenda)
    && (DateSet(d.ultimaVenda) ==> e.ultimaVenda == d.ultimaVenda)
    && (AmountSet(d.totalDevolucao) ==> e.totalDevolucao == d.totalDevolucao)
    && (AmountSet(d.custoDevTotal) ==> e.custoDevTotal == d.custoDevTotal)
    && (AmountSet(d.custoVendaTotal) ==> e.custoVendaTotal == d.custoVendaTotal)
    && (AmountSet(d.totalCusto) ==> e.totalCusto == d.totalCusto)
    && (AmountSet(d.lucroReais) ==> e.lucroReais == d.lucroReais)
  }

  /** Sorting a number into its slot keeps the record's shape and never overwrites a first-come slot */
  lemma ClassifyKeepsGood(d: UploadRecord, x: real)
    requires Good(d)
    ensures Good(Classify(d, x)) && Keeps(d, Classify(d, x))
  {
    if x >= 0.0 && x < 1000.0 && x != Trunc(x) as real {
      assert x > 0.0;
    }
  }

  /** One field keeps the record's shape and never overwrites a first-come slot */
  lemma ApplyKindKeepsGood(d: UploadRecord, k: FieldKind, v: string, brDate: string -> Option<string>)
    requires Good(d)
    ensures Good(ApplyKind(d, k, v, brDate)) && Keeps(d, ApplyKind(d, k, v, brDate))
  {
    if k.AmountField? && k.value.Some? {
      ClassifyKeepsGood(d, k.value.value);
    }
  }

  /** The value loop keeps the record's shape and never overwrites a first-come slot */
  lemma {:induction false} FillKeepsGood(d: UploadRecord, fs: seq<(FieldKind, string)>, skip: nat, n: nat, brDate: string -> Option<string>)
    requires n <= |fs| && Good(d)
    ensures Good(Fill(d, fs, skip, n, brDate)) && Keeps(d, Fill(d, fs, skip, n, brDate))
    decreases n
  {
    if n > 0 {
      FillKeepsGood(d, fs, skip, n - 1, brDate);
      var prev := Fill(d, fs, skip, n - 1, brDate);
      if n - 1 != skip {
        ApplyKindKeepsGood(prev, fs[n - 1].0, fs[n - 1].1, brDate);
        KeepsTransitive(d, prev, ApplyKind(prev, fs[n - 1].0, fs[n - 1].1, brDate));
      }
    }
  }

  lemma KeepsTransitive(a: UploadRecord, b: UploadRecord, c: UploadRecord)
    requires Keeps(a, b) && Keeps(b, c)
    ensures Keeps(a, c)
  {
  }

  /** The parse, written with the customer's field `ci` */
  lemma UploadParseAt(line: string, brDate: string -> Option<string>)
    requires UploadParse(line, brDate).Some?
    ensures var parts := Fields(Trim(line)); var ci := FirstSet(NameFlags(parts), 0);
      && |parts| >= 3 && ci.Some? && ci.value < |parts|
      && UploadParse(line, brDate).value == Fill(Blank(Trim(parts[ci.value])), Tagged(parts), ci.value, |parts|, brDate)
  {
  }

  /** A parsed record has the shape `Good` describes */
  lemma UploadParseGood(line: string, brDate: string -> Option<string>)
    requires UploadParse(line, brDate).Some?
    ensures Good(UploadParse(line, brDate).value)
  {
    UploadParseAt(line, brDate);
    var parts := Fields(Trim(line));
    var ci := FirstSet(NameFlags(parts), 0).value;
    FillKeepsGood(Blank(Trim(parts[ci])), Tagged(parts), ci, |parts|, brDate);
  }

  /**
   * A parsed record's customer is a field `isValidClientName` accepts, and
   * no earlier field is accepted.
   */
  lemma UploadParseCustomer(line: string, brDate: string -> Option<string>)
    requires UploadParse(line, brDate).Some?
    ensures var parts := Fields(Trim(line)); var ci := FirstSet(NameFlags(parts), 0);
      && ci.Some? && UploadParse(line, brDate).value.cliente == Trim(parts[ci.value])
      && IsUploadClientName(UploadParse(line, brDate).value.cliente)
      && forall j :: 0 <= j < ci.value ==> !IsUploadClientName(Trim(parts[j]))
  {
    UploadParseAt(line, brDate);
    var parts := Fields(Trim(line));
    var flags := NameFlags(parts);
    var ci := FirstSet(flags, 0).value;
    FillKeepsGood(Blank(Trim(parts[ci])), Tagged(parts), ci, |parts|, brDate);
    assert flags[ci];
    forall j | 0 <= j < ci
      ensures !IsUploadClientName(Trim(parts[j]))
    {
      assert !flags[j];
    }
  }

  /** A line that splits into fewer than three fields gives nothing */
  lemma ShortLineRejected(line: string, brDate: string -> Option<string>)
    requires |Split(WideBlanks, Trim(line))| < 3 && |Split(Blanks, Trim(line))| < 3
    ensures UploadParse(line, brDate).None?
  {
  }

  // ----- the driver -----------------------------------------------------------------------

  /** The loop variables of `extrairDadosPlanilhaPdf` */
  datatype UploadState = UploadState(headerFound: bool, columnMapping: map<nat, string>, dados: seq<UploadRecord>)

  const UPLOAD_START := UploadState(false, map[], [])

  /**
   * What the driver's tests say about one line once trimmed: whether it is
   * blank, the columns it maps if it is a header, and whether it is a valid
   * row that parses (such a row reaches `validarDadosCliente`).
   */
  datatype LineView = LineView(blank: bool, header: Option<map<nat, string>>, crashes: bool)

  function ViewOf(line: string, brDate: string -> Option<string>): LineView {
    var l := Trim(line);
    LineView(
      Empty(l),
      if IsUploadHeader(l) then Some(HeaderMapping(l, map[])) else None,
      IsUploadRow(l) && UploadParse(l, brDate).Some?)
  }

  function Views(lines: seq<string>, brDate: string -> Option<string>): (vs: seq<LineView>)
    ensures |vs| == |lines|
  {
    seq(|lines|, k requires 0 <= k < |lines| => ViewOf(lines[k], brDate))
  }

  /**
   * The line loop from the front: blank lines skipped, the header searched
   * for until found, then every valid line parsed on its own. A line that
   * parses reaches `validarDadosCliente`, which this class does not define.
   */
  function UploadRun(st: UploadState, vs: seq<LineView>): Result<UploadState, Crash>
    decreases |vs|
  {
    if vs == [] then Success(st)
    else if vs[0].blank then UploadRun(st, vs[1..])
    else if !st.headerFound && vs[0].header.Some? then
      UploadRun(st.(headerFound := true, columnMapping := vs[0].header.value), vs[1..])
    else if st.headerFound && vs[0].crashes then Failure(UndefinedMethod("validarDadosCliente"))
    else UploadRun(st, vs[1..])
  }

  /** `extrairDadosPlanilhaPdf` of the upload importer */
  function UploadExtract(text: string, brDate: string -> Option<string>): Result<seq<UploadRecord>, Crash> {
    match UploadRun(UPLOAD_START, Views(Explode(text, '\n'), brDate))
    case Success(st) => Success(st.dados)
    case Failure(e) => Failure(e)
  }

  /** The driver's loop, leaving at the first crash */
  method ExtractUploadRows(text: string, brDate: string -> Option<string>) returns (r: Result<seq<UploadRecord>, Crash>)
    ensures r == UploadExtract(text, brDate)
  {
    var dados: seq<UploadRecord> := [];
    var lines := Explode(text, '\n');
    ghost var views := Views(lines, brDate);
    var headerFound := false;
    var columnMapping: map<nat, string> := map[];
    for i := 0 to |lines|
      invariant UploadRun(UPLOAD_START, views) == UploadRun(UploadState(headerFound, columnMapping, dados), views[i..])
    {
      assert views[i..][0] == ViewOf(lines[i], brDate) && views[i..][1..] == views[i + 1..];
      var line := Trim(lines[i]);
      if Empty(line) {
        continue;
      }
      if !headerFound {
        HeaderMappingFresh(line, columnMapping);
        var isHeader, mapping' := DetectUploadHeader(line, columnMapping);
        columnMapping := mapping';
        if isHeader {
          headerFound := true;
          continue;
        }
      }
      if headerFound && IsUploadRow(line) {
        var dadosLinha := ParseUploadLine(line, brDate);
        if dadosLinha.Some? {
          return Failure(UndefinedMethod("validarDadosCliente"));
        }
      }
    }
    assert views[|lines|..] == [];
    return Success(dados);
  }

  /** A header's columns do not depend on the mapping it replaces */
  lemma HeaderMappingFresh(l: string, m: map<nat, string>)
    ensures IsUploadHeader(l) ==> HeaderMapping(l, m) == HeaderMapping(l, map[])
    ensures !IsUploadHeader(l) ==> HeaderMapping(l, m) == m
  {
  }

  /** The loop never appends: a run that ends normally leaves `$dados` as it was */
  lemma {:induction false} UploadRunKeepsDados(st: UploadState, vs: seq<LineView>)
    requires UploadRun(st, vs).Success?
    ensures UploadRun(st, vs).value.dados == st.dados
    decreases |vs|
  {
    if vs != [] {
      if !vs[0].blank && !st.headerFound && vs[0].header.Some? {
        UploadRunKeepsDados(st.(headerFound := true, columnMapping := vs[0].header.value), vs[1..]);
      } else {
        UploadRunKeepsDados(st, vs[1..]);
      }
    }
  }

  /** The importer yields no record: either the list comes back empty or the run crashes */
  lemma UploadExtractYieldsNothing(text: string, brDate: string -> Option<string>)
    ensures UploadExtract(text, brDate).Success? ==> UploadExtract(text, brDate).value == []
  {
    var vs := Views(Explode(text, '\n'), brDate);
    if UploadRun(UPLOAD_START, vs).Success? {
      UploadRunKeepsDados(UPLOAD_START, vs);
    }
  }

  /** Before a header line no line is parsed: lines without a header never crash and change nothing */
  lemma {:induction false} NoHeaderViews(st: UploadState, vs: seq<LineView>)
    requires !st.headerFound
    requires forall k :: 0 <= k < |vs| ==> vs[k].header.None?
    ensures UploadRun(st, vs) == Success(st)
    decreases |vs|
  {
    if vs != [] {
      assert forall k :: 0 <= k < |vs| - 1 ==> vs[1..][k] == vs[k + 1];
      NoHeaderViews(st, vs[1..]);
    }
  }

  /** A text none of whose lines is a header gives an empty list and no crash */
  lemma NoHeaderNoRows(text: string, brDate: string -> Option<string>)
    requires forall k :: 0 <= k < |Explode(text, '\n')| ==> !IsUploadHeader(Trim(Explode(text, '\n')[k]))
    ensures UploadExtract(text, brDate) == Success([])
  {
    var lines := Explode(text, '\n');
    var vs := Views(lines, brDate);
    forall k | 0 <= k < |vs| ensures vs[k].header.None? {
      assert !IsUploadHeader(Trim(lines[k]));
    }
    NoHeaderViews(UPLOAD_START, vs);
  }

  /** Once the header is found it is never searched for again: the mapping stays as the header left it */
  lemma {:induction false} MappingFixedAfterHeader(st: UploadState, vs: seq<LineView>)
    requires st.headerFound && UploadRun(st, vs).Success?
    ensures UploadRun(st, vs).value == st
    decreases |vs|
  {
    if vs != [] {
      MappingFixedAfterHeader(st, vs[1..]);
    }
  }

  /** A header line followed by a line that is valid and parses ends the import with the crash */
  lemma HeaderThenRowCrashes(header: string, row: string, rest: seq<string>, brDate: string -> Option<string>)
    requires !Empty(Trim(header)) && IsUploadHeader(Trim(header))
    requires !Empty(Trim(row)) && IsUploadRow(Trim(row)) && UploadParse(Trim(row), brDate).Some?
    ensures UploadRun(UPLOAD_START, Views([header, row] + rest, brDate)) == Failure(UndefinedMethod("validarDadosCliente"))
  {
    var lines := [header, row] + rest;
    var vs := Views(lines, brDate);
    assert vs[0] == ViewOf(header, brDate) && vs[1] == ViewOf(row, brDate);
    assert !vs[0].blank && vs[0].header.Some?;
    assert !vs[1].blank && vs[1].crashes;
    HeaderThenCrash(vs);
  }

  /** On the views: a first header and a crashing second line */
  lemma HeaderThenCrash(vs: seq<LineView>)
    requires |vs| >= 2 && !vs[0].blank && vs[0].header.Some? && !vs[1].blank && vs[1].crashes
    ensures UploadRun(UPLOAD_START, vs) == Failure(UndefinedMethod("validarDadosCliente"))
  {
    assert vs[1..][0] == vs[1];
  }

  // ----- as evidently intended --------------------------------------------------------------

  /**
   * What the corrected driver keeps of a non-blank, non-header line: the
   * parsed record of a valid row after the header, when `validarDadosCliente`
   * as the text-report importer defines it accepts it.
   */
  function FixedRow(headerFound: bool, l: string, brDate: string -> Option<string>): Option<UploadRecord> {
    if headerFound && IsUploadRow(l) && UploadParse(l, brDate).Some? && IsValidCustomer(UploadParse(l, brDate).value.cliente)
    then UploadParse(l, brDate) else None
  }

  /**
   * The driver with the check it evidently meant, each accepted row appended
   * in line order. The column mapping is left out, since the parser never reads it.
   */
  function FixedRun(headerFound: bool, lines: seq<string>, brDate: string -> Option<string>): seq<UploadRecord>
    decreases |lines|
  {
    if lines == [] then []
    else
      var l := Trim(lines[0]);
      if Empty(l) then FixedRun(headerFound, lines[1..], brDate)
      else if !headerFound && IsUploadHeader(l) then FixedRun(true, lines[1..], brDate)
      else match FixedRow(headerFound, l, brDate)
        case Some(d) => [d] + FixedRun(headerFound, lines[1..], brDate)
        case None => FixedRun(headerFound, lines[1..], brDate)
  }

  /** `extrairDadosPlanilhaPdf` of the upload importer with the validation it was meant to call */
  function UploadExtractFixed(text: string, brDate: string -> Option<string>): seq<UploadRecord> {
    FixedRun(false, Explode(text, '\n'), brDate)
  }

  /** A record the corrected driver may keep: the parser's shape and a customer both checks accept */
  predicate Kept(d: UploadRecord) {
    Good(d) && IsUploadClientName(d.cliente) && IsValidCustomer(d.cliente)
  }

  /** The corrected driver's loop */
  method ExtractUploadRowsFixed(text: string, brDate: string -> Option<string>) returns (dados: seq<UploadRecord>)
    ensures dados == UploadExtractFixed(text, brDate)
  {
    dados := [];
    var lines := Explode(text, '\n');
    var headerFound := false;
    for i := 0 to |lines|
      invariant FixedRun(false, lines, brDate) == dados + FixedRun(headerFound, lines[i..], brDate)
    {
      assert lines[i..][0] == lines[i] && lines[i..][1..] == lines[i + 1..];
      var line := Trim(lines[i]);
      ghost var rest := FixedRun(headerFound, lines[i..], brDate);
      if Empty(line) {
        assert rest == FixedRun(headerFound, lines[i + 1..], brDate);
        continue;
      }
      if !headerFound && IsUploadHeader(line) {
        assert rest == FixedRun(true, lines[i + 1..], brDate);
        headerFound := true;
        continue;
      }
      var row := FixedRow(headerFound, line, brDate);
      if row.Some? {
        assert rest == [row.value] + FixedRun(headerFound, lines[i + 1..], brDate);
        dados := dados + [row.value];
      } else {
        assert rest == FixedRun(headerFound, lines[i + 1..], brDate);
      }
    }
    assert lines[|lines|..] == [];
  }

  /** A kept row has the parser's shape, and every parsed row after the header is kept */
  lemma FixedRowKept(headerFound: bool, l: string, brDate: string -> Option<string>)
    ensures FixedRow(headerFound, l, brDate).Some? ==> Kept(FixedRow(headerFound, l, brDate).value)
    ensures FixedRow(headerFound, l, brDate).Some? <==> headerFound && IsUploadRow(l) && UploadParse(l, brDate).Some?
  {
    if headerFound && IsUploadRow(l) && UploadParse(l, brDate).Some? {
      UploadParseGood(l, brDate);
      UploadParseCustomer(l, brDate);
    }
  }

  /** Every record the corrected driver keeps has the parser's shape and a valid customer */
  lemma {:induction false} FixedRecordsGood(headerFound: bool, lines: seq<string>, brDate: string -> Option<string>)
    ensures forall k :: 0 <= k < |FixedRun(headerFound, lines, brDate)| ==> Kept(FixedRun(headerFound, lines, brDate)[k])
    decreases |lines|
  {
    if lines != [] {
      var l := Trim(lines[0]);
      var h' := if !Empty(l) && !headerFound && IsUploadHeader(l) then true else headerFound;
      FixedRecordsGood(h', lines[1..], brDate);
      if !Empty(l) && (headerFound || !IsUploadHeader(l)) {
        FixedRowKept(headerFound, l, brDate);
      }
    }
  }

  /** The views of a non-empty list of lines: the first line's, then the rest's */
  lemma ViewsCons(lines: seq<string>, brDate: string -> Option<string>)
    requires lines != []
    ensures Views(lines, brDate)[0] == ViewOf(lines[0], brDate)
    ensures Views(lines, brDate)[1..] == Views(lines[1..], brDate)
  {
  }

  /**
   * The importer as written crashes exactly where the corrected driver would
   * keep a record: every parsed row passes the intended validation, so the
   * undefined call is reached on precisely the texts that hold a record.
   */
  lemma {:induction false} CrashIffRecord(st: UploadState, lines: seq<string>, brDate: string -> Option<string>)
    ensures UploadRun(st, Views(lines, brDate)).Failure? <==> FixedRun(st.headerFound, lines, brDate) != []
    decreases |lines|
  {
    if lines != [] {
      ViewsCons(lines, brDate);
      var l := Trim(lines[0]);
      if !Empty(l) && !st.headerFound && IsUploadHeader(l) {
        CrashIffRecord(st.(headerFound := true, columnMapping := HeaderMapping(l, map[])), lines[1..], brDate);
      } else {
        FixedRowKept(st.headerFound, l, brDate);
        CrashIffRecord(st, lines[1..], brDate);
      }
    }
  }

  /** Where the importer returns normally, the corrected one finds nothing either; where it crashes, records are lost */
  lemma UploadExtractLosesRecords(text: string, brDate: string -> Option<string>)
    ensures UploadExtract(text, brDate).Success? <==> UploadExtractFixed(text, brDate) == []
  {
    CrashIffRecord(UPLOAD_START, Explode(text, '\n'), brDate);
  }

  /** With the check in place, a header followed by a valid row keeps that row first */
  lemma HeaderThenRowKept(header: string, row: string, rest: seq<string>, brDate: string -> Option<string>)
    requires !Empty(Trim(header)) && IsUploadHeader(Trim(header))
    requires !Empty(Trim(row)) && IsUploadRow(Trim(row)) && UploadParse(Trim(row), brDate).Some?
    ensures FixedRun(false, [header, row] + rest, brDate) == [UploadParse(Trim(row), brDate).value] + FixedRun(true, rest, brDate)
  {
    var lines := [header, row] + rest;
    assert lines[1..][1..] == rest;
    FixedRowKept(true, Trim(row), brDate);
  }
}
