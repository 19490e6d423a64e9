/**
 * The PHP string primitives the report parsers are built from, stated on
 * `seq<char>`: character classes of PCRE without Unicode properties, `trim`,
 * `preg_replace('/\s+/', ' ', ...)`, ASCII case-insensitive search (`stripos`,
 * `strtolower`), `str_replace` with one needle, the line and field splitters,
 * and `strlen` as the UTF-8 byte length of the text.
 */
module Text {
  import opened Wrappers

  // ----- character classes --------------------------------------------------

  /** `\d` */
  predicate IsDigit(c: char) { '0' <= c <= '9' }

  /** `[a-zA-Z]` */
  predicate IsAsciiLetter(c: char) { 'a' <= c <= 'z' || 'A' <= c <= 'Z' }

  /** `\w`, which decides `\b` */
  predicate IsWordChar(c: char) { IsDigit(c) || IsAsciiLetter(c) || c == '_' }

  /** `\s`: space, tab, line feed, vertical tab, form feed, carriage return */
  predicate IsSpace(c: char) {
    c == ' ' || c == '\t' || c == '\n' || c == '\r' || c == '\U{B}' || c == '\U{C}'
  }

  /** The characters PHP's `trim` removes by default: " \t\n\r\0\x0B" */
  predicate IsTrimChar(c: char) {
    c == ' ' || c == '\t' || c == '\n' || c == '\r' || c == '\0' || c == '\U{B}'
  }

  /** `[\d.,]`: the characters of a locale-formatted number */
  predicate IsNumChar(c: char) { IsDigit(c) || c == '.' || c == ',' }

  predicate HasNumChar(s: string) { exists k :: 0 <= k < |s| && IsNumChar(s[k]) }

  predicate HasDigit(s: string) { exists k :: 0 <= k < |s| && IsDigit(s[k]) }

  predicate HasAsciiLetter(s: string) { exists k :: 0 <= k < |s| && IsAsciiLetter(s[k]) }

  /** ASCII lower-casing, as `strtolower` and case-insensitive matching do it */
  function Lower(c: char): char {
    if 'A' <= c <= 'Z' then (c as int + 32) as char else c
  }

  function LowerStr(s: string): string {
    seq(|s|, k requires 0 <= k < |s| => Lower(s[k]))
  }

  /** PHP's `empty()` on a string: only "" and "0" are empty */
  predicate Empty(s: string) { s == "" || s == "0" }

  // ----- literal search ------------------------------------------------------

  /** `lit` occurs in `s` at offset `i`, exactly */
  predicate HasAt(s: string, i: nat, lit: string) {
    i + |lit| <= |s| && s[i..i + |lit|] == lit
  }

  /** `lit` occurs in `s` at offset `i`, ignoring ASCII case */
  predicate HasAtCI(s: string, i: nat, lit: string) {
    i + |lit| <= |s| && forall k :: 0 <= k < |lit| ==> Lower(s[i + k]) == Lower(lit[k])
  }

  predicate StartsWithCI(s: string, lit: string) { HasAtCI(s, 0, lit) }

  /** `s` equals `lit` up to ASCII case */
  predicate EqualsCI(s: string, lit: string) { |s| == |lit| && HasAtCI(s, 0, lit) }

  /** First offset at or after `from` where `lit` occurs ignoring ASCII case */
  function FindCI(s: string, lit: string, from: nat): (r: Option<nat>)
    ensures r.Some? ==> from <= r.value && HasAtCI(s, r.value, lit)
    ensures r.Some? ==> forall j :: from <= j < r.value ==> !HasAtCI(s, j, lit)
    ensures r.None? ==> forall j :: from <= j ==> !HasAtCI(s, j, lit)
    decreases |s| - from
  {
    if from + |lit| > |s| then None
    else if HasAtCI(s, from, lit) then Some(from)
    else FindCI(s, lit, from + 1)
  }

  /** `stripos($s, $lit) !== false` */
  predicate ContainsCI(s: string, lit: string) { FindCI(s, lit, 0).Some? }

  /** `strpos($s, $lit) !== false` */
  predicate Contains(s: string, lit: string) {
    exists i :: 0 <= i <= |s| - |lit| && HasAt(s, i, lit)
  }

  // ----- trim and whitespace --------------------------------------------------

  function TrimLeft(s: string): (r: string)
    ensures |r| <= |s|
    ensures r == [] || !IsTrimChar(r[0])
    ensures forall k :: 0 <= k < |s| - |r| ==> IsTrimChar(s[k])
  {
    if s != [] && IsTrimChar(s[0]) then TrimLeft(s[1..]) else s
  }

  /** What `TrimLeft` keeps is a suffix of its input */
  lemma {:induction false} TrimLeftSuffix(s: string)
    ensures TrimLeft(s) == s[|s| - |TrimLeft(s)|..]
    decreases |s|
  {
    if s != [] && IsTrimChar(s[0]) {
      TrimLeftSuffix(s[1..]);
    }
  }

  function TrimRight(s: string): (r: string)
    ensures |r| <= |s|
    ensures r == [] || !IsTrimChar(r[|r| - 1])
    ensures forall k :: |r| <= k < |s| ==> IsTrimChar(s[k])
  {
    if s != [] && IsTrimChar(s[|s| - 1]) then TrimRight(s[..|s| - 1]) else s
  }

  /** What `TrimRight` keeps is a prefix of its input */
  lemma {:induction false} TrimRightPrefix(s: string)
    ensures TrimRight(s) == s[..|TrimRight(s)|]
    decreases |s|
  {
    if s != [] && IsTrimChar(s[|s| - 1]) {
      TrimRightPrefix(s[..|s| - 1]);
    }
  }

  /** PHP `trim`: the longest slice of `s` that neither starts nor ends with a trim character */
  function Trim(s: string): (r: string)
    ensures r == [] || (!IsTrimChar(r[0]) && !IsTrimChar(r[|r| - 1]))
    ensures forall k :: 0 <= k < |r| ==> r[k] in s
  {
    var l := TrimLeft(s);
    var r := TrimRight(l);
    TrimLeftSuffix(s);
    TrimRightPrefix(l);
    SliceChars(s, |s| - |l|, r);
    r
  }

  /** Every character of a slice occurs in the string it is cut from */
  lemma SliceChars(s: string, a: nat, r: string)
    requires a + |r| <= |s| && r == s[a..a + |r|]
    ensures forall k :: 0 <= k < |r| ==> r[k] in s
  {
    forall k | 0 <= k < |r|
      ensures r[k] in s
    {
      assert r[k] == s[a + k];
    }
  }

  /** Index just after the maximal run of `\s` that starts at `i` */
  function SkipSpaces(s: string, i: nat): (j: nat)
    requires i <= |s|
    ensures i <= j <= |s|
    ensures forall k :: i <= k < j ==> IsSpace(s[k])
    ensures j == |s| || !IsSpace(s[j])
    decreases |s| - i
  {
    if i < |s| && IsSpace(s[i]) then SkipSpaces(s, i + 1) else i
  }

  /**
   * `preg_replace('/\s+/', ' ', $s)`: every maximal run of whitespace becomes
   * one plain space, every other character is kept in order.
   */
  function Collapse(s: string): (r: string)
    ensures |r| <= |s|
    ensures forall k :: 0 <= k < |r| ==> r[k] == ' ' || (r[k] in s && !IsSpace(r[k]))
    ensures forall k :: 0 <= k < |r| - 1 ==> r[k] != ' ' || r[k + 1] != ' '
    ensures s != [] && !IsSpace(s[0]) ==> r != [] && r[0] == s[0]
    ensures s != [] ==> r != []
    decreases |s|
  {
    if s == [] then []
    else if IsSpace(s[0]) then
      var rest := s[SkipSpaces(s, 0)..];
      assert forall c :: c in rest ==> c in s;
      [' '] + Collapse(rest)
    else
      assert forall c :: c in s[1..] ==> c in s;
      [s[0]] + Collapse(s[1..])
  }

  // ----- str_replace ----------------------------------------------------------

  /**
   * `str_replace($needle, $repl, $s)` for one needle: a single left-to-right
   * pass replacing non-overlapping occurrences; an empty needle changes nothing.
   */
  function ReplaceAll(s: string, needle: string, repl: string): (r: string)
    ensures repl == [] ==> |r| <= |s|
    ensures forall k :: 0 <= k < |r| ==> r[k] in s || r[k] in repl
    decreases |s|
  {
    if needle == [] || |s| < |needle| then s
    else if s[..|needle|] == needle then
      var rest := ReplaceAll(s[|needle|..], needle, repl);
      assert forall c :: c in s[|needle|..] ==> c in s;
      repl + rest
    else
      var rest := ReplaceAll(s[1..], needle, repl);
      assert forall c :: c in s[1..] ==> c in s;
      [s[0]] + rest
  }

  /** Replacing one character by a string without it leaves no such character */
  lemma {:induction false} ReplaceCharRemoves(s: string, c: char, repl: string)
    requires c !in repl
    ensures c !in ReplaceAll(s, [c], repl)
    decreases |s|
  {
    if |s| >= 1 {
      if s[..1] == [c] {
        ReplaceCharRemoves(s[1..], c, repl);
      } else {
        assert s[0] != c;
        ReplaceCharRemoves(s[1..], c, repl);
      }
    }
  }

  /** A string that holds no occurrence of the needle's first character is left alone */
  lemma {:induction false} ReplaceAbsent(s: string, needle: string, repl: string)
    requires needle != [] && needle[0] !in s
    ensures ReplaceAll(s, needle, repl) == s
    decreases |s|
  {
    if |s| >= |needle| {
      assert s[0] != needle[0];
      assert s[..|needle|] != needle;
      ReplaceAbsent(s[1..], needle, repl);
    }
  }

  /** A leading character that cannot start the needle passes through unchanged */
  lemma ReplaceCons(c: char, s: string, needle: string, repl: string)
    requires needle != [] && needle[0] != c
    ensures ReplaceAll([c] + s, needle, repl) == [c] + ReplaceAll(s, needle, repl)
  {
    var t := [c] + s;
    assert t[1..] == s;
    if |t| >= |needle| {
      assert t[..|needle|][0] == c;
    }
  }

  // ----- byte length ----------------------------------------------------------

  /** Bytes of the UTF-8 encoding of one character */
  function Utf8Width(c: char): nat {
    if (c as int) < 0x80 then 1
    else if (c as int) < 0x800 then 2
    else if (c as int) < 0x10000 then 3
    else 4
  }

  /** PHP `strlen` of a UTF-8 string: its length in bytes */
  function Utf8Length(s: string): (n: nat)
    ensures |s| <= n <= 4 * |s|
  {
    if s == [] then 0 else Utf8Width(s[0]) + Utf8Length(s[1..])
  }

  /** The last byte of the UTF-8 encoding of `c` */
  function Utf8LastByte(c: char): nat {
    if (c as int) < 0x80 then c as int else 0x80 + (c as int) % 64
  }

  // ----- line splitting ---------------------------------------------------------

  predicate NoBreak(l: string) { '\n' !in l && '\r' !in l }

  /** `preg_split("/\r\n|\n|\r/", $s)`: CR LF, LF and a lone CR each end a line */
  function SplitLines(s: string): (r: seq<string>)
    ensures |r| >= 1
    ensures forall k :: 0 <= k < |r| ==> NoBreak(r[k])
    decreases |s|
  {
    if s == [] then [[]]
    else if s[0] == '\r' && |s| >= 2 && s[1] == '\n' then [[]] + SplitLines(s[2..])
    else if s[0] == '\n' || s[0] == '\r' then [[]] + SplitLines(s[1..])
    else
      var rest := SplitLines(s[1..]);
      [[s[0]] + rest[0]] + rest[1..]
  }

  /** `implode("\n", $ls)`; `PHP_EOL` is "\n" on the server */
  function JoinLines(ls: seq<string>): string
  {
    if |ls| == 0 then "" else if |ls| == 1 then ls[0] else ls[0] + "\n" + JoinLines(ls[1..])
  }

  lemma {:induction false} SplitSingleLine(l: string)
    requires NoBreak(l)
    ensures SplitLines(l) == [l]
    decreases |l|
  {
    if l != [] {
      SplitSingleLine(l[1..]);
      assert [l[0]] + l[1..] == l;
    }
  }

  lemma {:induction false} SplitAfterLine(a: string, t: string)
    requires NoBreak(a)
    ensures SplitLines(a + "\n" + t) == [a] + SplitLines(t)
    decreases |a|
  {
    var s := a + "\n" + t;
    if a == [] {
      assert s == "\n" + t && s[1..] == t;
    } else {
      assert s[0] == a[0] && s[1..] == a[1..] + "\n" + t;
      SplitAfterLine(a[1..], t);
      assert [a[0]] + a[1..] == a;
    }
  }

  /** Splitting joined lines gives the lines back: nothing is lost or reordered */
  lemma {:induction false} SplitJoinRoundTrip(ls: seq<string>)
    requires |ls| >= 1
    requires forall k :: 0 <= k < |ls| ==> NoBreak(ls[k])
    ensures SplitLines(JoinLines(ls)) == ls
    decreases |ls|
  {
    if |ls| == 1 {
      SplitSingleLine(ls[0]);
    } else {
      SplitJoinRoundTrip(ls[1..]);
      SplitAfterLine(ls[0], JoinLines(ls[1..]));
    }
  }

  /** `explode($sep, $s)` for a one-character separator */
  function Explode(s: string, sep: char): (r: seq<string>)
    ensures |r| >= 1
    ensures forall k :: 0 <= k < |r| ==> sep !in r[k]
    decreases |s|
  {
    if s == [] then [[]]
    else if s[0] == sep then [[]] + Explode(s[1..], sep)
    else
      var rest := Explode(s[1..], sep);
      [[s[0]] + rest[0]] + rest[1..]
  }

  // ----- field splitting ----------------------------------------------------------

  /** The two field separators the parsers use with `preg_split` */
  datatype Separator =
    | Blanks     // '/\s+/' (and '/[\s\t]+/', the same class)
    | WideBlanks // '/\s{2,}|\t+/'

  /** Index just after the maximal run of tabs that starts at `i` */
  function SkipTabs(s: string, i: nat): (j: nat)
    requires i <= |s|
    ensures i <= j <= |s|
    decreases |s| - i
  {
    if i < |s| && s[i] == '\t' then SkipTabs(s, i + 1) else i
  }

  /** End of the separator match that starts at `i`, if one does */
  function SeparatorEnd(sep: Separator, s: string, i: nat): (r: Option<nat>)
    requires i <= |s|
    ensures r.Some? ==> i < r.value <= |s|
    ensures sep == Blanks ==> (r.Some? <==> i < |s| && IsSpace(s[i]))
  {
    if i >= |s| then None
    else match sep
      case Blanks => if IsSpace(s[i]) then Some(SkipSpaces(s, i)) else None
      case WideBlanks =>
        if i + 1 < |s| && IsSpace(s[i]) && IsSpace(s[i + 1]) then Some(SkipSpaces(s, i))
        else if s[i] == '\t' then Some(SkipTabs(s, i))
        else None
  }

  /** Scans on from `i`, the current field having started at `start` */
  function SplitFrom(sep: Separator, s: string, start: nat, i: nat): (r: seq<string>)
    requires start <= i <= |s|
    requires sep == Blanks ==> forall k :: start <= k < i ==> !IsSpace(s[k])
    ensures |r| >= 1
    ensures sep == Blanks ==> forall p :: 0 <= p < |r| ==> forall k :: 0 <= k < |r[p]| ==> !IsSpace(r[p][k])
    ensures forall p :: 0 <= p < |r| ==> forall k :: 0 <= k < |r[p]| ==> r[p][k] in s
    decreases |s| - i
  {
    if i == |s| then
      assert forall k :: 0 <= k < |s| - start ==> s[start..][k] == s[start + k];
      [s[start..]]
    else match SeparatorEnd(sep, s, i)
      case Some(e) =>
        assert forall k :: 0 <= k < i - start ==> s[start..i][k] == s[start + k];
        [s[start..i]] + SplitFrom(sep, s, e, e)
      case None => SplitFrom(sep, s, start, i + 1)
  }

  /** `preg_split($separator, $s)`: the fields between separator matches, empty ones included */
  function Split(sep: Separator, s: string): (r: seq<string>)
    ensures |r| >= 1
    ensures sep == Blanks ==> forall p :: 0 <= p < |r| ==> forall k :: 0 <= k < |r[p]| ==> !IsSpace(r[p][k])
    ensures forall p :: 0 <= p < |r| ==> forall k :: 0 <= k < |r[p]| ==> r[p][k] in s
  {
    SplitFrom(sep, s, 0, 0)
  }
}
