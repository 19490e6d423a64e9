/**
 * The positional parser left in the upload page (`CreatePdfUpload`): the
 * line is collapsed and split on single spaces, the first part is the
 * customer, the first two `dd/mm/yyyy` dates are the first and last sale,
 * and the first three runs of `[\d,.]` (the pieces of the dates included)
 * are the average sale, the quantity and the sales cost. Nothing calls it:
 * `afterCreate` only stores the extracted text. `DateTime::createFromFormat`
 * is the parameter `brDate`.
 */
module CreateUpload {
  import opened Wrappers
  import opened Text
  import opened Numeric
  import opened Scan
  import Converters
  import opened UploadParser

  /** A line the extractor skips as a header: `strpos`, so case matters */
  predicate IsCreateHeader(l: string) {
    Contains(l, "Cliente") || Contains(l, "Primeira Venda")
  }

  /** The number a `[\d,.]` run is read as: every dot deleted, the comma turned into a point */
  function RunValue(n: string): real {
    Converters.FloatVal(ReplaceAll(Converters.DeleteDots(n), ",", "."))
  }

  /** A run of digits is read as its integer value */
  lemma RunValueDigits(x: string)
    requires AllDigits(x)
    ensures RunValue(x) == DigitsValue(x) as real
  {
    if x != [] {
      assert '.' !in x && ',' !in x;
      ReplaceAbsent(x, ".", "");
      ReplaceAbsent(x, ",", ".");
    }
    Converters.FloatValInteger(x);
  }

  /** The record built from the customer, the date matches and the number runs */
  function FillCreate(cliente: string, dates: seq<Match>, nums: seq<Match>, brDate: string -> Option<string>): (d: UploadRecord)
    ensures d.cliente == cliente
    ensures d.totalDevolucao.None? && d.custoDevTotal.None? && d.totalCusto.None?
    ensures d.lucroReais.None? && d.lucroPercentual.None?
  {
    UploadRecord(
      cliente,
      if |dates| >= 1 then brDate(dates[0].text) else None,
      if |dates| >= 2 then brDate(dates[1].text) else None,
      if |nums| >= 1 then Some(RunValue(nums[0].text)) else None,
      if |nums| >= 2 then Some(Trunc(RunValue(nums[1].text))) else None,
      if |nums| >= 3 then Some(RunValue(nums[2].text)) else None,
      None, None, None, None, None)
  }

  /** `parsearLinhaDados` of the upload page: `None` for fewer than three parts */
  function CreateParse(line: string, brDate: string -> Option<string>): (r: Option<UploadRecord>)
    ensures r.Some? <==> |Explode(Collapse(line), ' ')| >= 3
    ensures r.Some? ==> ' ' !in r.value.cliente
  {
    var l := Collapse(line);
    var parts := Explode(l, ' ');
    if |parts| < 3 then None
    else Some(FillCreate(parts[0], Matches(StrictDate, l), Matches(Run, l), brDate))
  }

  /** The imperative `parsearLinhaDados`: the record starts blank and the slots are written in turn */
  method ParseCreateLine(line: string, brDate: string -> Option<string>) returns (r: Option<UploadRecord>)
    ensures r == CreateParse(line, brDate)
  {
    var l := Collapse(line);
    var parts := Explode(l, ' ');
    if |parts| < 3 {
      return None;
    }
    var dados := Blank(parts[0]);
    var dates := Matches(StrictDate, l);
    if |dates| >= 1 {
      dados := dados.(primeiraVenda := brDate(dates[0].text));
    }
    if |dates| >= 2 {
      dados := dados.(ultimaVenda := brDate(dates[1].text));
    }
    var numbers := Matches(Run, l);
    if |numbers| > 0 {
      var nums := seq(|numbers|, k requires 0 <= k < |numbers| => RunValue(numbers[k].text));
      if |nums| >= 1 {
        dados := dados.(valorVendaMedio := Some(nums[0]));
      }
      if |nums| >= 2 {
        dados := dados.(quantidadeTotalVenda := Some(Trunc(nums[1])));
      }
      if |nums| >= 3 {
        dados := dados.(custoVendaTotal := Some(nums[2]));
      }
    }
    assert dados == FillCreate(parts[0], dates, numbers, brDate);
    r := Some(dados);
  }

  // ----- extrairDadosTabela ------------------------------------------------------------

  /** The records one line of the text creates: none or one, with a customer PHP does not take as empty */
  function CreateLine(raw: string, brDate: string -> Option<string>): (rs: seq<UploadRecord>)
    ensures |rs| <= 1
    ensures forall k :: 0 <= k < |rs| ==> !Empty(rs[k].cliente) && ' ' !in rs[k].cliente
  {
    var line := Trim(raw);
    if Empty(line) || IsCreateHeader(line) then []
    else match CreateParse(line, brDate)
      case None => []
      case Some(d) => if Empty(d.cliente) then [] else [d]
  }

  /** The records of each line, one after the other */
  function Flatten(outs: seq<seq<UploadRecord>>): seq<UploadRecord> {
    if outs == [] then [] else outs[0] + Flatten(outs[1..])
  }

  /** The records `VendaCliente::create` receives, in the order of the lines */
  function CreateRows(lines: seq<string>, brDate: string -> Option<string>): seq<UploadRecord> {
    Flatten(seq(|lines|, i requires 0 <= i < |lines| => CreateLine(lines[i], brDate)))
  }

  /** The body of the extractor's loop */
  method CreateFromLine(raw: string, brDate: string -> Option<string>) returns (rs: seq<UploadRecord>)
    ensures rs == CreateLine(raw, brDate)
  {
    var line := Trim(raw);
    if Empty(line) || IsCreateHeader(line) {
      return [];
    }
    var dados := ParseCreateLine(line, brDate);
    if dados.Some? && !Empty(dados.value.cliente) {
      rs := [dados.value];
    } else {
      rs := [];
    }
  }

  lemma FlattenStep(outs: seq<seq<UploadRecord>>, i: nat, created: seq<UploadRecord>)
    requires i < |outs|
    ensures created + Flatten(outs[i..]) == (created + outs[i]) + Flatten(outs[i + 1..])
  {
    assert outs[i..][1..] == outs[i + 1..] && outs[i..][0] == outs[i];
  }

  /** The imperative `extrairDadosTabela`: the records it would create */
  method ExtractCreateRows(text: string, brDate: string -> Option<string>) returns (created: seq<UploadRecord>)
    ensures created == CreateRows(Explode(text, '\n'), brDate)
  {
    var lines := Explode(text, '\n');
    ghost var outs := seq(|lines|, i requires 0 <= i < |lines| => CreateLine(lines[i], brDate));
    created := [];
    assert outs[0..] == outs;
    for i := 0 to |lines|
      invariant Flatten(outs) == created + Flatten(outs[i..])
    {
      var rs := CreateFromLine(lines[i], brDate);
      assert rs == outs[i];
      FlattenStep(outs, i, created);
      created := created + rs;
    }
    assert outs[|lines|..] == [];
    assert created + [] == created;
  }

  // ----- what the parser does ----------------------------------------------------------

  /** The first part of an `explode` is the text up to the first separator */
  lemma {:induction false} ExplodeFirst(s: string, sep: char)
    ensures var f := Explode(s, sep)[0];
      |f| <= |s| && f == s[..|f|] && sep !in f && (|f| == |s| || s[|f|] == sep)
    decreases |s|
  {
    if s != [] && s[0] != sep {
      ExplodeFirst(s[1..], sep);
    }
  }

  /** The customer is the collapsed line up to its first space, whatever it holds */
  lemma CustomerIsFirstWord(line: string, brDate: string -> Option<string>)
    requires CreateParse(line, brDate).Some?
    ensures var c := CreateParse(line, brDate).value.cliente; var l := Collapse(line);
      |c| <= |l| && c == l[..|c|] && (|c| == |l| || l[|c|] == ' ')
  {
    ExplodeFirst(Collapse(line), ' ');
  }

  /** Flattening keeps every record of every line */
  lemma {:induction false} FlattenCustomers(outs: seq<seq<UploadRecord>>)
    requires forall i, k :: 0 <= i < |outs| && 0 <= k < |outs[i]| ==> !Empty(outs[i][k].cliente) && ' ' !in outs[i][k].cliente
    ensures forall k :: 0 <= k < |Flatten(outs)| ==> !Empty(Flatten(outs)[k].cliente) && ' ' !in Flatten(outs)[k].cliente
    decreases |outs|
  {
    if outs != [] {
      FlattenCustomers(outs[1..]);
      var f := Flatten(outs);
      forall k | 0 <= k < |f|
        ensures !Empty(f[k].cliente) && ' ' !in f[k].cliente
      {
        if k >= |outs[0]| {
          assert f[k] == Flatten(outs[1..])[k - |outs[0]|];
        }
      }
    }
  }

  /** Every record the extractor creates has a customer without spaces that PHP does not take as empty */
  lemma CreatedRowsHaveCustomers(lines: seq<string>, brDate: string -> Option<string>)
    ensures forall k :: 0 <= k < |CreateRows(lines, brDate)| ==>
      var c := CreateRows(lines, brDate)[k].cliente; !Empty(c) && ' ' !in c
  {
    FlattenCustomers(seq(|lines|, i requires 0 <= i < |lines| => CreateLine(lines[i], brDate)));
  }

  /** When the run after a match starts at `q`, the scan's next match is that run */
  lemma NextRun(l: string, ms: seq<Match>, k: nat, q: nat)
    requires IsScanOf(Run, l, ms, 0) && k < |ms|
    requires ms[k].End() <= q < |l| && IsNumChar(l[q])
    requires forall i :: ms[k].End() <= i < q ==> !IsNumChar(l[i])
    ensures k + 1 < |ms| && ms[k + 1].start == q && ms[k + 1].End() == RunEnd(l, q)
  {
    assert MatchEnd(Run, l, q).Some?;
    assert k + 1 < |ms|;
    var n := ms[k + 1];
    assert Genuine(Run, l, n);
    assert n.start <= q;
    assert MatchEnd(Run, l, n.start).Some?;
  }

  /** The digits and slashes of a strict date at `p` */
  lemma StrictDateShape(s: string, p: nat)
    requires DateEnd(s, p, true).Some?
    ensures p + 10 <= |s|
    ensures IsDigit(s[p]) && IsDigit(s[p + 1]) && s[p + 2] == '/'
    ensures IsDigit(s[p + 3]) && IsDigit(s[p + 4]) && s[p + 5] == '/'
    ensures AllDigits(s[p..p + 2]) && AllDigits(s[p + 3..p + 5])
  {
    assert DayMonthEnd(s, p, true) == Some(p + 3);
    assert DayMonthEnd(s, p + 3, true) == Some(p + 6);
    assert s[p..p + 2] == [s[p], s[p + 1]] && s[p + 3..p + 5] == [s[p + 3], s[p + 4]];
  }

  /** When the first number of a text starts a date, the first two runs are its day and its month */
  lemma DateRunsFirst(l: string, p: nat)
    requires FirstNumChar(l, 0) == Some(p) && DateEnd(l, p, true).Some?
    ensures var ms := Matches(Run, l);
      p + 5 <= |l| && |ms| >= 2 && ms[0].text == l[p..p + 2] && ms[1].text == l[p + 3..p + 5]
  {
    var ms := Matches(Run, l);
    StrictDateShape(l, p);
    FirstRunIsFirstNumChar(l);
    assert Genuine(Run, l, ms[0]);
    assert RunEnd(l, p) == p + 2;
    NextRun(l, ms, 0, p + 3);
    assert RunEnd(l, p + 3) == p + 5;
    assert Genuine(Run, l, ms[1]);
  }

  /**
   * The pieces of a date are numbers too: when the first number on the line
   * starts a date, its day becomes the average sale and its month the quantity.
   */
  lemma DateReadAsAmounts(line: string, brDate: string -> Option<string>, p: nat)
    requires var l := Collapse(line);
      |Explode(l, ' ')| >= 3 && FirstNumChar(l, 0) == Some(p) && DateEnd(l, p, true).Some?
    ensures var l := Collapse(line); var r := CreateParse(line, brDate);
      && p + 5 <= |l| && r.Some? && AllDigits(l[p..p + 2]) && AllDigits(l[p + 3..p + 5])
      && r.value.valorVendaMedio == Some(DigitsValue(l[p..p + 2]) as real)
      && r.value.quantidadeTotalVenda == Some(DigitsValue(l[p + 3..p + 5]) as int)
  {
    var l := Collapse(line);
    DateRunsFirst(l, p);
    var ms := Matches(Run, l);
    var day := l[p..p + 2];
    var month := l[p + 3..p + 5];
    StrictDateShape(l, p);
    RunValueDigits(day);
    RunValueDigits(month);
    var d := FillCreate(Explode(l, ' ')[0], Matches(StrictDate, l), ms, brDate);
    assert CreateParse(line, brDate) == Some(d);
    assert d.valorVendaMedio == Some(RunValue(day));
    assert d.quantidadeTotalVenda == Some(Trunc(RunValue(month)));
  }
}
