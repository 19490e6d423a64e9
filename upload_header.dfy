/**
 * The header detector of the upload importer: twelve column patterns are
 * searched in the lower-cased line; with six or more found, the columns are
 * numbered in the order in which they first occur in the line.
 */
module UploadHeader {
  import opened Wrappers
  import opened Text

  /** The column names, in the order the patterns are tried */
  const FIELDS: seq<string> := [
    "cliente", "qtd", "total_venda", "custo_venda", "total_devolucao", "custo_dev",
    "total_custo", "vl_vnd_medio", "lucro_reais", "lucro_percentual", "primeira_venda", "ultima_venda"
  ]

  /** Patterns needed for a header line */
  const UPLOAD_THRESHOLD: nat := 6

  /** `first\s*second` at `p`, ignoring ASCII case */
  predicate WordsAt(s: string, p: nat, first: string, second: string) {
    HasAtCI(s, p, first) && HasAtCI(s, SkipSpaces(s, p + |first|), second)
  }

  /**
   * `devolu[çc][aã]o` without the `u` flag: each class matches one byte, so
   * of the accented spellings only "devoluão" gets through.
   */
  predicate DevolucaoAt(s: string, p: nat) {
    HasAtCI(s, p, "devolu") && (HasAtCI(s, p + 6, "cao") || HasAt(s, p + 6, "ão"))
  }

  /**
   * Pattern `k` matches at `p`. Byte classes: `m[eé]dio` only matches "medio";
   * `[uú]ltima` matches "u", or the last byte of any character whose UTF-8
   * encoding ends in 0xBA, as lower-case 'ú' does.
   */
  predicate LabelAt(k: nat, s: string, p: nat) {
    match k
    case 0 => HasAtCI(s, p, "cliente")
    case 1 => HasAtCI(s, p, "qtd")
    case 2 => WordsAt(s, p, "total", "venda")
    case 3 => WordsAt(s, p, "custo", "venda")
    case 4 => HasAtCI(s, p, "total") && DevolucaoAt(s, SkipSpaces(s, p + 5))
    case 5 => WordsAt(s, p, "custo", "dev")
    case 6 => WordsAt(s, p, "total", "custo")
    case 7 => HasAtCI(s, p, "vl") && WordsAt(s, SkipSpaces(s, p + 2), "vnd", "medio")
    case 8 => WordsAt(s, p, "lucro", "(r$)")
    case 9 => WordsAt(s, p, "lucro", "(%)")
    case 10 => WordsAt(s, p, "primeira", "venda")
    case _ => p < |s| && (Lower(s[p]) == 'u' || Utf8LastByte(s[p]) == 0xBA) && WordsAt(s, p + 1, "ltima", "venda")
  }

  /** The first position in `from..n` that passes `at`: `preg_match`'s leftmost match */
  function FirstWhere(at: nat -> bool, from: nat, n: nat): (r: Option<nat>)
    ensures r.Some? ==> from <= r.value < n
    decreases n - from
  {
    if from >= n then None
    else if at(from) then Some(from)
    else FirstWhere(at, from + 1, n)
  }

  /** The search finds the first position that passes, and `None` only when none does */
  lemma {:induction false} FirstWhereFirst(at: nat -> bool, from: nat, n: nat)
    ensures var r := FirstWhere(at, from, n);
      && (r.Some? ==> at(r.value) && forall q :: from <= q < r.value ==> !at(q))
      && (r.None? ==> forall q :: from <= q < n ==> !at(q))
    decreases n - from
  {
    if from < n && !at(from) {
      FirstWhereFirst(at, from + 1, n);
    }
  }

  /** Pattern `k` as a test of offsets in `s` */
  function LabelTest(k: nat, s: string): nat -> bool {
    (p: nat) => LabelAt(k, s, p)
  }

  /** The offset of the first match of pattern `k` at or after `from` */
  function FindLabel(k: nat, s: string, from: nat): (r: Option<nat>)
    ensures r.Some? ==> from <= r.value < |s|
  {
    FirstWhere(LabelTest(k, s), from, |s|)
  }

  /** The search finds the first offset at which the pattern matches, and `None` only when there is none */
  lemma FindLabelFirst(k: nat, s: string, from: nat)
    ensures var r := FindLabel(k, s, from);
      && (r.Some? ==> LabelAt(k, s, r.value) && forall q :: from <= q < r.value ==> !LabelAt(k, s, q))
      && (r.None? ==> forall q :: from <= q < |s| ==> !LabelAt(k, s, q))
  {
    var at := LabelTest(k, s);
    FirstWhereFirst(at, from, |s|);
    var r := FindLabel(k, s, from);
    var end := if r.Some? then r.value else |s|;
    forall q | from <= q < end
      ensures !LabelAt(k, s, q)
    {
      assert !at(q);
    }
    if r.Some? {
      assert at(r.value);
    }
  }

  /** The first offset of every pattern in `s` */
  function Finds(s: string): (fs: seq<Option<nat>>)
    ensures |fs| == |FIELDS|
  {
    seq(|FIELDS|, k requires 0 <= k < |FIELDS| => FindLabel(k, s, 0))
  }

  /** `$tempMapping` after the first `n` patterns: (pattern, offset) for those found, in pattern order */
  function Hits(fs: seq<Option<nat>>, n: nat): (hs: seq<(nat, nat)>)
    requires n <= |fs|
    ensures |hs| <= n
    ensures forall i :: 0 <= i < |hs| ==> hs[i].0 < n
  {
    if n == 0 then []
    else
      var prev := Hits(fs, n - 1);
      match fs[n - 1]
      case None => prev
      case Some(p) => prev + [(n - 1, p)]
  }

  /** Each hit is a pattern with its offset */
  predicate HitsAreFinds(fs: seq<Option<nat>>, hs: seq<(nat, nat)>) {
    forall i :: 0 <= i < |hs| ==> hs[i].0 < |fs| && fs[hs[i].0] == Some(hs[i].1)
  }

  /** The hits come in pattern order */
  predicate InPatternOrder(hs: seq<(nat, nat)>) {
    forall i, j :: 0 <= i < j < |hs| ==> hs[i].0 < hs[j].0
  }

  /** Each hit is a pattern with its offset, and the hits come in pattern order */
  lemma {:induction false} HitsSound(fs: seq<Option<nat>>, n: nat)
    requires n <= |fs|
    ensures HitsAreFinds(fs, Hits(fs, n)) && InPatternOrder(Hits(fs, n))
    decreases n
  {
    if n > 0 {
      HitsSound(fs, n - 1);
      var prev := Hits(fs, n - 1);
      if fs[n - 1].Some? {
        var hs := prev + [(n - 1, fs[n - 1].value)];
        assert Hits(fs, n) == hs;
        forall i, j | 0 <= i < j < |hs|
          ensures hs[i].0 < hs[j].0
        {
          assert hs[i] == prev[i];
          if j < |prev| {
            assert hs[j] == prev[j];
          }
        }
      }
    }
  }

  /** Every pattern that occurs is among the hits */
  lemma {:induction false} HitsComplete(fs: seq<Option<nat>>, n: nat, k: nat)
    requires k < n <= |fs| && fs[k].Some?
    ensures (k, fs[k].value) in Hits(fs, n)
    decreases n
  {
    if k < n - 1 {
      HitsComplete(fs, n - 1, k);
    }
  }

  // ----- asort ------------------------------------------------------------------------

  predicate SortedByOffset(hs: seq<(nat, nat)>) {
    forall i, j :: 0 <= i < j < |hs| ==> hs[i].1 <= hs[j].1
  }

  /** Places `x` after every element whose offset is not larger: ties keep their order */
  function InsertByOffset(x: (nat, nat), hs: seq<(nat, nat)>): (r: seq<(nat, nat)>)
    requires SortedByOffset(hs)
    ensures SortedByOffset(r)
    ensures multiset(r) == multiset(hs) + multiset{x}
    ensures |r| == |hs| + 1
  {
    if hs == [] || hs[|hs| - 1].1 <= x.1 then hs + [x]
    else
      var init := hs[..|hs| - 1];
      var last := hs[|hs| - 1];
      assert hs == init + [last];
      var r := InsertByOffset(x, init);
      NoneAbove(r, init, x, last);
      SortedSnoc(r, last);
      r + [last]
  }

  /** The elements of `init` and `x`, in any order, all lie at or below `last` */
  lemma NoneAbove(r: seq<(nat, nat)>, init: seq<(nat, nat)>, x: (nat, nat), last: (nat, nat))
    requires multiset(r) == multiset(init) + multiset{x}
    requires SortedByOffset(init + [last]) && x.1 < last.1
    ensures forall i :: 0 <= i < |r| ==> r[i].1 <= last.1
  {
    forall i | 0 <= i < |r|
      ensures r[i].1 <= last.1
    {
      assert r[i] in multiset(r);
      if r[i] != x {
        assert r[i] in multiset(init);
        var j :| 0 <= j < |init| && init[j] == r[i];
        assert (init + [last])[j] == r[i] && (init + [last])[|init|] == last;
      }
    }
  }

  /** A sorted sequence stays sorted with an element at least as large as all of it at its end */
  lemma SortedSnoc(r: seq<(nat, nat)>, last: (nat, nat))
    requires SortedByOffset(r) && forall i :: 0 <= i < |r| ==> r[i].1 <= last.1
    ensures SortedByOffset(r + [last])
  {
  }

  /** `asort($tempMapping)`: stable (PHP 8), ascending by offset */
  function SortByOffset(hs: seq<(nat, nat)>): (r: seq<(nat, nat)>)
    ensures SortedByOffset(r)
    ensures multiset(r) == multiset(hs)
    ensures |r| == |hs|
  {
    if hs == [] then []
    else
      assert hs == hs[..|hs| - 1] + [hs[|hs| - 1]];
      InsertByOffset(hs[|hs| - 1], SortByOffset(hs[..|hs| - 1]))
  }

  /** Every hit names one of the twelve columns */
  predicate KnownColumns(hs: seq<(nat, nat)>) {
    forall i :: 0 <= i < |hs| ==> hs[i].0 < |FIELDS|
  }

  /** `$columnMapping[$index] = $field` for the sorted hits */
  function Numbered(sorted: seq<(nat, nat)>): (m: map<nat, string>)
    requires KnownColumns(sorted)
    ensures forall i: nat :: i in m <==> i < |sorted|
  {
    map i: nat | i < |sorted| :: FIELDS[sorted[i].0]
  }

  /** Sorting keeps the hits' columns */
  lemma SortKeepsColumns(hs: seq<(nat, nat)>)
    requires KnownColumns(hs)
    ensures KnownColumns(SortByOffset(hs))
  {
    var r := SortByOffset(hs);
    forall i | 0 <= i < |r|
      ensures r[i].0 < |FIELDS|
    {
      assert r[i] in multiset(hs);
    }
  }

  /** The loop that numbers the sorted columns */
  method NumberColumns(sorted: seq<(nat, nat)>) returns (columnMapping: map<nat, string>)
    requires KnownColumns(sorted)
    ensures columnMapping == Numbered(sorted)
  {
    columnMapping := map[];
    var index := 0;
    while index < |sorted|
      invariant 0 <= index <= |sorted|
      invariant forall i: nat :: i in columnMapping <==> i < index
      invariant forall i: nat :: i < index ==> columnMapping[i] == FIELDS[sorted[i].0]
    {
      columnMapping := columnMapping[index := FIELDS[sorted[index].0]];
      index := index + 1;
    }
  }

  /** Six or more of the patterns occur in the lower-cased line */
  predicate IsUploadHeader(line: string) {
    |Hits(Finds(LowerStr(line)), |FIELDS|)| >= UPLOAD_THRESHOLD
  }

  /** What the detector leaves in the caller's mapping */
  function HeaderMapping(line: string, mapping: map<nat, string>): map<nat, string>
  {
    var hs := Hits(Finds(LowerStr(line)), |FIELDS|);
    SortKeepsColumns(hs);
    if |hs| >= UPLOAD_THRESHOLD then Numbered(SortByOffset(hs)) else mapping
  }

  /**
   * `detectarCabecalhoEMapearColunas`: count the patterns that match the
   * lower-cased line, recording each first offset; with six or more, the
   * mapping is rebuilt as the found columns numbered by offset; otherwise the
   * caller's mapping is left alone.
   */
  method DetectUploadHeader(line: string, columnMapping: map<nat, string>)
    returns (isHeader: bool, mapping': map<nat, string>)
    ensures isHeader <==> IsUploadHeader(line)
    ensures mapping' == HeaderMapping(line, columnMapping)
    ensures !isHeader ==> mapping' == columnMapping
  {
    var lineForAnalysis := LowerStr(line);
    ghost var fs := Finds(lineForAnalysis);
    var matches := 0;
    var tempMapping: seq<(nat, nat)> := [];
    var k := 0;
    while k < |FIELDS|
      invariant 0 <= k <= |FIELDS|
      invariant tempMapping == Hits(fs, k)
      invariant matches == |tempMapping|
    {
      var m := FindLabel(k, lineForAnalysis, 0);
      assert m == fs[k];
      if m.Some? {
        matches := matches + 1;
        tempMapping := tempMapping + [(k, m.value)];
      }
      k := k + 1;
    }
    mapping' := columnMapping;
    isHeader := false;
    if matches >= UPLOAD_THRESHOLD {
      SortKeepsColumns(tempMapping);
      var sorted := SortByOffset(tempMapping);
      mapping' := NumberColumns(sorted);
      isHeader := true;
    }
  }

  /**
   * After a header is found the columns are numbered 0..n-1 and column `i`
   * first occurs no later than column `i + 1`; each numbered column is a
   * pattern that occurs, and every pattern that occurs gets a number.
   */
  lemma HeaderColumnsInLineOrder(line: string, mapping: map<nat, string>)
    requires IsUploadHeader(line)
    ensures var s := LowerStr(line); var sorted := SortByOffset(Hits(Finds(s), |FIELDS|));
      && KnownColumns(sorted)
      && HeaderMapping(line, mapping) == Numbered(sorted)
      && SortedByOffset(sorted)
      && (forall i :: 0 <= i < |sorted| ==> FindLabel(sorted[i].0, s, 0) == Some(sorted[i].1))
      && (forall k :: 0 <= k < |FIELDS| && FindLabel(k, s, 0).Some? ==> (k, FindLabel(k, s, 0).value) in sorted)
  {
    var s := LowerStr(line);
    var hs := Hits(Finds(s), |FIELDS|);
    assert |hs| >= UPLOAD_THRESHOLD;
    SortKeepsColumns(hs);
    assert HeaderMapping(line, mapping) == Numbered(SortByOffset(hs));
    FoundColumns(s);
  }

  /** The sorted hits of a line are the patterns it holds, each with its first offset */
  lemma FoundColumns(s: string)
    ensures var sorted := SortByOffset(Hits(Finds(s), |FIELDS|));
      && KnownColumns(sorted)
      && (forall i :: 0 <= i < |sorted| ==> FindLabel(sorted[i].0, s, 0) == Some(sorted[i].1))
      && (forall k :: 0 <= k < |FIELDS| && FindLabel(k, s, 0).Some? ==> (k, FindLabel(k, s, 0).value) in sorted)
  {
    var fs := Finds(s);
    SortedHits(fs);
    var sorted := SortByOffset(Hits(fs, |FIELDS|));
    forall i | 0 <= i < |sorted|
      ensures FindLabel(sorted[i].0, s, 0) == Some(sorted[i].1)
    {
      assert fs[sorted[i].0] == Some(sorted[i].1);
    }
    forall k | 0 <= k < |FIELDS| && FindLabel(k, s, 0).Some?
      ensures (k, FindLabel(k, s, 0).value) in sorted
    {
      assert fs[k] == FindLabel(k, s, 0);
    }
  }

  /** The sorted hits are exactly the patterns found, each with its offset */
  lemma SortedHits(fs: seq<Option<nat>>)
    requires |fs| == |FIELDS|
    ensures var sorted := SortByOffset(Hits(fs, |fs|));
      && KnownColumns(sorted)
      && (forall i :: 0 <= i < |sorted| ==> fs[sorted[i].0] == Some(sorted[i].1))
      && (forall k :: 0 <= k < |fs| && fs[k].Some? ==> (k, fs[k].value) in sorted)
  {
    var hs := Hits(fs, |fs|);
    var sorted := SortByOffset(hs);
    HitsSound(fs, |fs|);
    SortKeepsColumns(hs);
    forall i | 0 <= i < |sorted|
      ensures fs[sorted[i].0] == Some(sorted[i].1)
    {
      assert sorted[i] in multiset(hs);
      var j :| 0 <= j < |hs| && hs[j] == sorted[i];
      assert fs[hs[j].0] == Some(hs[j].1);
    }
    forall k | 0 <= k < |fs| && fs[k].Some?
      ensures (k, fs[k].value) in sorted
    {
      HitsComplete(fs, |fs|, k);
      assert (k, fs[k].value) in multiset(hs);
    }
  }

  /** "medio" is found but "médio" is not: the byte class cannot match a two-byte letter */
  lemma AccentedMedioMissed(s: string, p: nat)
    requires HasAtCI(s, p, "vl vnd m") && p + 8 < |s| && s[p + 8] == 'é'
    ensures !LabelAt(7, s, p)
  {
    var lit := "vl vnd m";
    assert Lower(s[p + 2]) == Lower(lit[2]) && Lower(s[p + 3]) == Lower(lit[3]);
    assert Lower(s[p + 6]) == Lower(lit[6]) && Lower(s[p + 7]) == Lower(lit[7]);
    assert s[p + 2] == ' ' && s[p + 6] == ' ';
    assert SkipSpaces(s, p + 2) == p + 3;
    assert SkipSpaces(s, p + 6) == p + 7;
    assert !HasAtCI(s, p + 7, "medio") by {
      assert Lower(s[p + 7 + 1]) != Lower("medio"[1]);
    }
  }
}
