/**
 * The driver of the text-report importer (`extrairDadosPlanilhaPdf`): the text
 * is split into lines; the header is looked for until it is found; noise lines
 * are dropped; the other lines are joined in a buffer until the candidate is a
 * complete row, which is then parsed and kept when its customer is valid.
 */
module ReportExtract {
  import opened Wrappers
  import opened Text
  import opened Scan
  import opened ReportLines
  import opened ReportParser

  /** The variables of the driver loop */
  datatype DriverState = DriverState(
    headerFound: bool,
    mapping: map<string, string>,
    buffer: string,
    dados: seq<SalesRecord>)

  /** Before the first line */
  const START := DriverState(false, map[], "", [])

  /** The detector says the (trimmed) line is the header */
  predicate IsHeaderLine(line: string) {
    HitCount(HEADER_LABELS, HeaderNormal(line), |HEADER_LABELS|) >= HEADER_THRESHOLD
  }

  /** `if ($dadosLinha && validarDadosCliente($dadosLinha))` */
  function Accept(r: Option<SalesRecord>): seq<SalesRecord> {
    if r.Some? && IsValidCustomer(r.value.cliente) then [r.value] else []
  }

  /** `$buffer === '' ? $line : ($buffer . ' ' . $line)` */
  function Candidate(buffer: string, line: string): string {
    if buffer == [] then line else buffer + " " + line
  }

  /** The mapping after the detector has (or has not) been run on a non-blank line; it writes whether or not it succeeds */
  function StepMapping(st: DriverState, line: string): map<string, string> {
    if st.headerFound then st.mapping else MappingAfter(HEADER_LABELS, st.mapping, HeaderNormal(line), |HEADER_LABELS|)
  }

  /** One turn of the loop on a physical line */
  function Step(st: DriverState, raw: string): DriverState {
    var line := Trim(raw);
    if line == [] then st
    else
      var m := StepMapping(st, line);
      if !st.headerFound && IsHeaderLine(line) then st.(headerFound := true, mapping := m)
      else if IsNoise(line) then st.(mapping := m)
      else Feed(st.(mapping := m), line)
  }

  /** A data line: it extends the candidate; a complete candidate is parsed and the buffer emptied */
  function Feed(st: DriverState, line: string): DriverState {
    var candidate := Candidate(st.buffer, line);
    if IsComplete(candidate) then st.(buffer := "", dados := st.dados + Accept(ParseRecord(candidate)))
    else st.(buffer := candidate)
  }

  /** The loop over the lines `ls`, from state `st` */
  function Run(st: DriverState, ls: seq<string>): DriverState
  {
    if ls == [] then st else Step(Run(st, ls[..|ls| - 1]), ls[|ls| - 1])
  }

  /** The trailing buffer, parsed only when complete */
  function Flush(st: DriverState): seq<SalesRecord> {
    if st.buffer != [] && IsComplete(st.buffer) then st.dados + Accept(ParseRecord(st.buffer)) else st.dados
  }

  /** `extrairDadosPlanilhaPdf` as a function of the text */
  function Extract(text: string): seq<SalesRecord> {
    Flush(Run(START, SplitLines(text)))
  }

  /** Lines 370-381: extend the candidate; a complete one is parsed and the buffer emptied */
  method FeedLine(buffer: string, dados: seq<SalesRecord>, line: string) returns (buffer': string, dados': seq<SalesRecord>)
    ensures var candidate := Candidate(buffer, line);
      && (IsComplete(candidate) ==> buffer' == [] && dados' == dados + Accept(ParseRecord(candidate)))
      && (!IsComplete(candidate) ==> buffer' == candidate && dados' == dados)
  {
    var candidate := if buffer == "" then line else buffer + " " + line;
    assert candidate == Candidate(buffer, line);
    dados' := dados;
    if IsComplete(candidate) {
      var dadosLinha := ParseLine(candidate);
      assert Accept(dadosLinha) == Accept(ParseRecord(candidate));
      if dadosLinha.Some? && IsValidCustomer(dadosLinha.value.cliente) {
        dados' := dados' + [dadosLinha.value];
      }
      buffer' := "";
    } else {
      buffer' := candidate;
    }
  }

  /** The loop after one more line */
  lemma RunSnoc(st: DriverState, ls: seq<string>, i: nat)
    requires i < |ls|
    ensures Run(st, ls[..i + 1]) == Step(Run(st, ls[..i]), ls[i])
  {
    assert ls[..i + 1][..i] == ls[..i];
  }

  /** The turn on a line that is neither blank, nor the awaited header, nor noise */
  lemma StepOnData(st: DriverState, raw: string)
    requires Trim(raw) != [] && !(!st.headerFound && IsHeaderLine(Trim(raw))) && !IsNoise(Trim(raw))
    ensures Step(st, raw) == Feed(st.(mapping := StepMapping(st, Trim(raw))), Trim(raw))
  {
  }

  /** One turn of the loop of lines 351-382 on the physical line `raw` */
  method Turn(headerFound: bool, columnMapping: map<string, string>, buffer: string, dados: seq<SalesRecord>, raw: string)
    returns (headerFound': bool, columnMapping': map<string, string>, buffer': string, dados': seq<SalesRecord>)
    ensures DriverState(headerFound', columnMapping', buffer', dados')
      == Step(DriverState(headerFound, columnMapping, buffer, dados), raw)
  {
    ghost var st := DriverState(headerFound, columnMapping, buffer, dados);
    headerFound', columnMapping', buffer', dados' := headerFound, columnMapping, buffer, dados;
    var line := Trim(raw);
    if line == "" {
      return;
    }
    if !headerFound {
      var isHeader, mapping' := DetectHeader(line, columnMapping);
      TrimIdempotent(raw);
      columnMapping' := mapping';
      if isHeader {
        headerFound' := true;
        return;
      }
    }
    assert columnMapping' == StepMapping(st, line);
    assert !(!st.headerFound && IsHeaderLine(line));
    if IsNoise(line) {
      return;
    }
    StepOnData(st, raw);
    ghost var fed := Feed(st.(mapping := columnMapping'), line);
    buffer', dados' := FeedLine(buffer, dados, line);
    assert fed == DriverState(headerFound', columnMapping', buffer', dados');
  }

  /** The driver as the PHP runs it */
  method ExtractSalesRecords(text: string) returns (dados: seq<SalesRecord>)
    ensures dados == Extract(text)
  {
    var lines := SplitLines(text);
    var headerFound := false;
    var columnMapping: map<string, string> := map[];
    var buffer := "";
    dados := [];
    for i := 0 to |lines|
      invariant Run(START, lines[..i]) == DriverState(headerFound, columnMapping, buffer, dados)
    {
      RunSnoc(START, lines, i);
      headerFound, columnMapping, buffer, dados := Turn(headerFound, columnMapping, buffer, dados, lines[i]);
    }
    assert lines[..|lines|] == lines;
    dados := FlushBuffer(headerFound, columnMapping, buffer, dados);
  }

  /** Lines 384-391: the trailing buffer is parsed only when it is a complete row */
  method FlushBuffer(headerFound: bool, columnMapping: map<string, string>, buffer: string, dados: seq<SalesRecord>)
    returns (dados': seq<SalesRecord>)
    ensures dados' == Flush(DriverState(headerFound, columnMapping, buffer, dados))
  {
    dados' := dados;
    if buffer != "" && IsComplete(buffer) {
      var dadosLinha := ParseLine(buffer);
      assert Accept(dadosLinha) == Accept(ParseRecord(buffer));
      if dadosLinha.Some? && IsValidCustomer(dadosLinha.value.cliente) {
        dados' := dados' + [dadosLinha.value];
      }
    }
  }

  // ----- what the driver promises ------------------------------------------------------

  /** A kept record: valid for `validarDadosCliente`, and its customer holds no digit, '.' or ',' */
  predicate GoodRecord(r: SalesRecord) {
    IsValidCustomer(r.cliente) && forall k :: 0 <= k < |r.cliente| ==> !IsNumChar(r.cliente[k])
  }

  /** What every state of the loop satisfies: the buffer is never a complete row; every record is good */
  predicate Inv(st: DriverState) {
    (st.buffer == [] || !IsComplete(st.buffer)) && forall k :: 0 <= k < |st.dados| ==> GoodRecord(st.dados[k])
  }

  lemma AcceptGood(candidate: string)
    ensures forall k :: 0 <= k < |Accept(ParseRecord(candidate))| ==> GoodRecord(Accept(ParseRecord(candidate))[k])
  {
    if ParseRecord(candidate).Some? {
      CustomerHasNoNumChar(candidate);
    }
  }

  /** What one turn can do: leave the records alone, or append the accepted parse of a complete candidate */
  lemma StepEffect(st: DriverState, raw: string)
    ensures var st' := Step(st, raw); var c := Candidate(st.buffer, Trim(raw));
      && (st'.dados == st.dados || (IsComplete(c) && st'.dados == st.dados + Accept(ParseRecord(c))))
      && (st'.buffer == st.buffer || st'.buffer == [] || (st'.buffer == c && !IsComplete(c)))
      && (st.headerFound ==> st'.headerFound && st'.mapping == st.mapping)
  {
    var line := Trim(raw);
    if line == [] {
    } else if !st.headerFound && IsHeaderLine(line) {
    } else if IsNoise(line) {
    } else {
      var m := StepMapping(st, line);
      assert Step(st, raw) == Feed(st.(mapping := m), line);
    }
  }

  lemma GoodAppend(d: seq<SalesRecord>, x: seq<SalesRecord>)
    requires forall k :: 0 <= k < |d| ==> GoodRecord(d[k])
    requires forall k :: 0 <= k < |x| ==> GoodRecord(x[k])
    ensures forall k :: 0 <= k < |d + x| ==> GoodRecord((d + x)[k])
  {
  }

  lemma StepKeepsInv(st: DriverState, raw: string)
    requires Inv(st)
    ensures Inv(Step(st, raw))
  {
    StepEffect(st, raw);
    var c := Candidate(st.buffer, Trim(raw));
    AcceptGood(c);
    GoodAppend(st.dados, Accept(ParseRecord(c)));
  }

  /** The loop keeps the invariant */
  lemma {:induction false} RunKeepsInv(st: DriverState, ls: seq<string>)
    requires Inv(st)
    ensures Inv(Run(st, ls))
    decreases |ls|
  {
    if ls != [] {
      RunKeepsInv(st, ls[..|ls| - 1]);
      StepKeepsInv(Run(st, ls[..|ls| - 1]), ls[|ls| - 1]);
    }
  }

  /**
   * The trailing-buffer branch never adds anything: a buffer is only ever
   * kept while it is incomplete. Every record has a valid customer free of
   * number characters.
   */
  lemma ExtractedRecordsAreGood(text: string)
    ensures Extract(text) == Run(START, SplitLines(text)).dados
    ensures forall k :: 0 <= k < |Extract(text)| ==> GoodRecord(Extract(text)[k])
  {
    RunKeepsInv(START, SplitLines(text));
  }

  /** Records are only appended, at most one per line, so document order is kept */
  lemma {:induction false} RunAppends(st: DriverState, ls: seq<string>)
    ensures st.dados <= Run(st, ls).dados
    ensures |Run(st, ls).dados| <= |st.dados| + |ls|
    decreases |ls|
  {
    if ls != [] {
      RunAppends(st, ls[..|ls| - 1]);
      StepEffect(Run(st, ls[..|ls| - 1]), ls[|ls| - 1]);
      assert |Accept(ParseRecord(Candidate(Run(st, ls[..|ls| - 1]).buffer, Trim(ls[|ls| - 1]))))| <= 1;
    }
  }

  /**
   * Once found, the header stays found and the detector is not run again:
   * the mapping no longer changes.
   */
  lemma {:induction false} HeaderFoundStays(st: DriverState, ls: seq<string>)
    requires st.headerFound
    ensures Run(st, ls).headerFound && Run(st, ls).mapping == st.mapping
    decreases |ls|
  {
    if ls != [] {
      HeaderFoundStays(st, ls[..|ls| - 1]);
      StepEffect(Run(st, ls[..|ls| - 1]), ls[|ls| - 1]);
    }
  }

  /**
   * Header detection comes before the noise filter, and the header line
   * never enters the buffer nor yields a record.
   */
  lemma HeaderLineConsumed(st: DriverState, raw: string)
    requires !st.headerFound && Trim(raw) != [] && IsHeaderLine(Trim(raw))
    ensures var st' := Step(st, raw);
      st'.headerFound && st'.buffer == st.buffer && st'.dados == st.dados
  {
  }

  /** A noise line changes neither the buffer nor the records */
  lemma NoiseLineDropped(st: DriverState, raw: string)
    requires IsNoise(raw) && (st.headerFound || !IsHeaderLine(Trim(raw)))
    ensures var st' := Step(st, raw);
      st'.buffer == st.buffer && st'.dados == st.dados && st'.headerFound == st.headerFound
  {
    NoiseIgnoresTrim(raw);
  }

  /** A complete candidate built from an empty buffer is the line itself, parsed at once */
  lemma FeedFresh(st: DriverState, line: string)
    requires st.buffer == [] && IsComplete(line)
    ensures Feed(st, line) == st.(dados := st.dados + Accept(ParseRecord(line)))
  {
  }

  /** An incomplete line on an empty buffer becomes the buffer */
  lemma FeedHold(st: DriverState, line: string)
    requires st.buffer == [] && !IsComplete(line)
    ensures Feed(st, line) == st.(buffer := line)
  {
  }

  /** A complete candidate made of the buffer and the line is parsed as a whole */
  lemma FeedJoin(st: DriverState, line: string)
    requires st.buffer != [] && IsComplete(st.buffer + " " + line)
    ensures Feed(st, line) == st.(buffer := "", dados := st.dados + Accept(ParseRecord(st.buffer + " " + line)))
  {
  }

  /** The loop over one and over two lines */
  lemma RunShort(st: DriverState, a: string, b: string)
    ensures Run(st, [a]) == Step(st, a)
    ensures Run(st, [a, b]) == Step(Step(st, a), b)
  {
    assert [a][..0] == [] && [a, b][..1] == [a];
  }

  /** A complete row on a line of its own becomes exactly one record, header or not */
  lemma SingleRowRecord(raw: string)
    requires NoBreak(raw)
    requires var line := Trim(raw); line != [] && !IsHeaderLine(line) && !IsNoise(line) && IsComplete(line)
    ensures Extract(raw) == Accept(ParseRecord(Trim(raw)))
  {
    SplitSingleLine(raw);
    RunShort(START, raw, raw);
    StepOnData(START, raw);
    FeedFresh(START.(mapping := StepMapping(START, Trim(raw))), Trim(raw));
    FlushEmpty(Step(START, raw));
  }

  /** A row wrapped over two lines is joined with one blank and parsed as a whole */
  lemma WrappedRowJoined(a: string, b: string)
    requires NoBreak(a) && NoBreak(b)
    requires Trim(a) != [] && !IsHeaderLine(Trim(a)) && !IsNoise(Trim(a)) && !IsComplete(Trim(a))
    requires Trim(b) != [] && !IsHeaderLine(Trim(b)) && !IsNoise(Trim(b))
    requires IsComplete(Trim(a) + " " + Trim(b))
    ensures Extract(a + "\n" + b) == Accept(ParseRecord(Trim(a) + " " + Trim(b)))
  {
    SplitTwo(a, b);
    var s2 := TwoLinesRun(a, b);
    FlushEmpty(s2);
  }

  lemma SplitTwo(a: string, b: string)
    requires NoBreak(a) && NoBreak(b)
    ensures SplitLines(a + "\n" + b) == [a, b]
  {
    SplitAfterLine(a, b);
    SplitSingleLine(b);
  }

  /** The loop over the two lines of a wrapped row */
  lemma TwoLinesRun(a: string, b: string) returns (s2: DriverState)
    requires Trim(a) != [] && !IsHeaderLine(Trim(a)) && !IsNoise(Trim(a)) && !IsComplete(Trim(a))
    requires Trim(b) != [] && !IsHeaderLine(Trim(b)) && !IsNoise(Trim(b))
    requires IsComplete(Trim(a) + " " + Trim(b))
    ensures s2 == Run(START, [a, b]) && s2.buffer == [] && s2.dados == Accept(ParseRecord(Trim(a) + " " + Trim(b)))
  {
    RunShort(START, a, b);
    var s1 := FirstLineHeld(a);
    NextLineCompletes(s1, b);
    s2 := Step(s1, b);
  }

  /** With an empty buffer the trailing branch adds nothing */
  lemma FlushEmpty(st: DriverState)
    requires st.buffer == []
    ensures Flush(st) == st.dados
  {
  }

  /** A data line that completes the buffered candidate empties the buffer and yields its parse */
  lemma NextLineCompletes(st: DriverState, b: string)
    requires st.buffer != [] && !st.headerFound
    requires Trim(b) != [] && !IsHeaderLine(Trim(b)) && !IsNoise(Trim(b))
    requires IsComplete(st.buffer + " " + Trim(b))
    ensures Step(st, b).buffer == [] && Step(st, b).dados == st.dados + Accept(ParseRecord(st.buffer + " " + Trim(b)))
  {
    StepOnData(st, b);
    FeedJoin(st.(mapping := StepMapping(st, Trim(b))), Trim(b));
  }

  /** An incomplete first data line only fills the buffer */
  lemma FirstLineHeld(a: string) returns (s1: DriverState)
    requires Trim(a) != [] && !IsHeaderLine(Trim(a)) && !IsNoise(Trim(a)) && !IsComplete(Trim(a))
    ensures s1 == Step(START, a) && s1.buffer == Trim(a) && !s1.headerFound && s1.dados == []
  {
    StepOnData(START, a);
    var s0 := START.(mapping := StepMapping(START, Trim(a)));
    FeedHold(s0, Trim(a));
    s1 := s0.(buffer := Trim(a));
  }
}
