/**
 * The Python string operations the scraper relies on, over `string`
 * (a sequence of Unicode scalar values): `str.isspace`, `str.splitlines`,
 * `str.strip`, `str.lower` (ASCII letters only), `str.startswith`,
 * `s.split(":", 1)[1]`, `", ".join(...)` and the `<=` comparison on `str`.
 */
module Text {

  /** Python's `str.isspace` for one character: the whitespace that `strip()` removes. */
  predicate IsSpace(c: char) {
    c == ' ' || ('\t' <= c <= '\r') || ('\U{1C}' <= c <= '\U{1F}') ||
    c == '\U{85}' || c == '\U{A0}' || c == '\U{1680}' || ('\U{2000}' <= c <= '\U{200A}') ||
    c == '\U{2028}' || c == '\U{2029}' || c == '\U{202F}' || c == '\U{205F}' || c == '\U{3000}'
  }

  /** The characters at which Python's `str.splitlines` ends a line. */
  predicate IsLineBreak(c: char) {
    c == '\n' || c == '\r' || c == '\U{B}' || c == '\U{C}' || ('\U{1C}' <= c <= '\U{1E}') ||
    c == '\U{85}' || c == '\U{2028}' || c == '\U{2029}'
  }

  predicate IsUpper(c: char) {
    'A' <= c <= 'Z'
  }

  function LowerChar(c: char): (d: char)
    ensures !IsUpper(d)
    ensures IsUpper(c) ==> d == (c as int + 32) as char
    ensures !IsUpper(c) ==> d == c
  {
    if IsUpper(c) then (c as int + 32) as char else c
  }

  /** `s.lower()`, restricted to the ASCII letters A-Z. */
  function Lower(s: string): (r: string)
    ensures |r| == |s|
    ensures forall i :: 0 <= i < |s| ==> r[i] == LowerChar(s[i])
  {
    seq(|s|, i requires 0 <= i < |s| => LowerChar(s[i]))
  }

  predicate IsLowerCase(s: string) {
    forall i :: 0 <= i < |s| ==> !IsUpper(s[i])
  }

  predicate StartsWith(s: string, prefix: string) {
    |prefix| <= |s| && s[..|prefix|] == prefix
  }

  /** Index of the first line break in `s`, or `|s|` when there is none. */
  function LineEnd(s: string): (k: nat)
    ensures k <= |s|
    ensures forall i :: 0 <= i < k ==> !IsLineBreak(s[i])
    ensures k < |s| ==> IsLineBreak(s[k])
  {
    if s == [] || IsLineBreak(s[0]) then 0 else 1 + LineEnd(s[1..])
  }

  /**
   * `s.splitlines()`: the text between line breaks, where "\r\n" counts as
   * one break and a break at the very end does not start an empty last line.
   */
  function SplitLines(s: string): (lines: seq<string>)
    ensures s == [] <==> lines == []
    ensures forall i, j :: 0 <= i < |lines| && 0 <= j < |lines[i]| ==> !IsLineBreak(lines[i][j])
    decreases |s|
  {
    if s == [] then []
    else
      var k := LineEnd(s);
      if k == |s| then [s]
      else
        [s[..k]] + SplitLines(s[BreakEnd(s, k)..])
  }

  /** Where the text after the line break at `k` starts: "\r\n" is one break. */
  function BreakEnd(s: string, k: nat): (next: nat)
    requires k < |s|
    ensures k < next <= |s|
  {
    if s[k] == '\r' && k + 1 < |s| && s[k + 1] == '\n' then k + 2 else k + 1
  }

  predicate IsStripped(s: string) {
    s == [] || (!IsSpace(s[0]) && !IsSpace(s[|s| - 1]))
  }

  /** `s.lstrip()`: drops leading whitespace, keeps a suffix of `s`. */
  function TrimStart(s: string): (r: string)
    ensures |r| <= |s| && r == s[|s| - |r|..]
    ensures forall i :: 0 <= i < |s| - |r| ==> IsSpace(s[i])
    ensures r == [] || !IsSpace(r[0])
  {
    if s != [] && IsSpace(s[0]) then TrimStart(s[1..]) else s
  }

  /** `s.rstrip()`: drops trailing whitespace, keeps a prefix of `s`. */
  function TrimEnd(s: string): (r: string)
    ensures |r| <= |s| && r == s[..|r|]
    ensures forall i :: |r| <= i < |s| ==> IsSpace(s[i])
    ensures r == [] || !IsSpace(r[|r| - 1])
  {
    if s != [] && IsSpace(s[|s| - 1]) then TrimEnd(s[..|s| - 1]) else s
  }

  /** `s.strip()`. */
  function Strip(s: string): (r: string)
    ensures IsStripped(r)
    ensures |r| <= |s|
  {
    TrimEnd(TrimStart(s))
  }

  /**
   * What `strip()` keeps: the slice `s[i..j]` left after dropping the leading
   * and the trailing whitespace.
   */
  lemma StripSlice(s: string)
    ensures exists i, j ::
              && 0 <= i <= j <= |s| && Strip(s) == s[i..j]
              && (forall k :: 0 <= k < i ==> IsSpace(s[k]))
              && (forall k :: j <= k < |s| ==> IsSpace(s[k]))
  {
    var t := TrimStart(s);
    var i := |s| - |t|;
    var j := i + |TrimEnd(t)|;
    assert Strip(s) == s[i..j] by {
      assert t == s[i..];
    }
    TrailingSpace(s, t, i);
  }

  lemma TrailingSpace(s: string, t: string, i: nat)
    requires i <= |s| && t == s[i..]
    ensures forall k :: i + |TrimEnd(t)| <= k < |s| ==> IsSpace(s[k])
  {
    assert forall k :: i <= k < |s| ==> s[k] == t[k - i];
  }

  /**
   * `s.split(":", 1)[1]`: everything after the first colon. Python raises
   * IndexError when there is no colon; every caller here has one.
   */
  function AfterFirstColon(s: string): (r: string)
    requires ':' in s
    ensures |r| < |s| && s[|s| - |r| - 1] == ':' && r == s[|s| - |r|..]
    ensures ':' !in s[..|s| - |r| - 1]
  {
    if s[0] == ':' then s[1..] else AfterFirstColon(s[1..])
  }

  /** `sep.join(parts)`. */
  function Join(parts: seq<string>, sep: string): (r: string)
    ensures |parts| == 1 ==> r == parts[0]
  {
    if parts == [] then []
    else if |parts| == 1 then parts[0]
    else parts[0] + sep + Join(parts[1..], sep)
  }

  /** Python's `a <= b` on `str`: lexicographic by code point, a prefix is smaller. */
  predicate LexLe(a: string, b: string) {
    if a == [] then true
    else if b == [] then false
    else if a[0] != b[0] then a[0] < b[0]
    else LexLe(a[1..], b[1..])
  }

  lemma {:induction false} JoinNonEmpty(parts: seq<string>, sep: string)
    requires parts != [] && parts[0] != []
    ensures Join(parts, sep) != []
  {
    if |parts| > 1 {
      assert Join(parts, sep) == parts[0] + sep + Join(parts[1..], sep);
    }
  }

  lemma LowerIdempotent(s: string)
    ensures Lower(Lower(s)) == Lower(s)
  {
  }

  lemma {:induction false} TrimStartLower(s: string)
    ensures TrimStart(Lower(s)) == Lower(TrimStart(s))
    decreases |s|
  {
    if s != [] {
      var t := Lower(s);
      assert t[0] == LowerChar(s[0]);
      if IsSpace(s[0]) {
        assert t[1..] == Lower(s[1..]);
        TrimStartLower(s[1..]);
      } else {
        assert !IsSpace(t[0]);
      }
    }
  }

  lemma {:induction false} TrimEndLower(s: string)
    ensures TrimEnd(Lower(s)) == Lower(TrimEnd(s))
    decreases |s|
  {
    if s != [] {
      var t := Lower(s);
      assert t[|s| - 1] == LowerChar(s[|s| - 1]);
      if IsSpace(s[|s| - 1]) {
        assert t[..|s| - 1] == Lower(s[..|s| - 1]);
        TrimEndLower(s[..|s| - 1]);
      } else {
        assert !IsSpace(t[|t| - 1]);
      }
    }
  }

  /** Stripping and lowering commute: neither changes what the other looks at. */
  lemma StripLower(s: string)
    ensures Strip(Lower(s)) == Lower(Strip(s))
  {
    TrimStartLower(s);
    TrimEndLower(TrimStart(s));
  }

  lemma {:induction false} TrimEndTrimStart(s: string)
    requires s == [] || !IsSpace(s[0])
    ensures TrimStart(TrimEnd(s)) == TrimEnd(s)
  {
  }

  /** Stripping twice is stripping once. */
  lemma StripIdempotent(s: string)
    ensures Strip(Strip(s)) == Strip(s)
  {
    var t := TrimStart(s);
    TrimEndTrimStart(t);
  }

  lemma {:induction false} AfterFirstColonLower(s: string)
    requires ':' in s
    ensures ':' in Lower(s)
    ensures AfterFirstColon(Lower(s)) == Lower(AfterFirstColon(s))
  {
    var t := Lower(s);
    assert t[0] == LowerChar(s[0]);
    assert t[1..] == Lower(s[1..]);
    if s[0] == ':' {
      assert t[0] == ':';
    } else {
      assert t[0] != ':';
      AfterFirstColonLower(s[1..]);
    }
  }

  lemma {:induction false} LineEndLower(s: string)
    ensures LineEnd(Lower(s)) == LineEnd(s)
  {
    if s != [] {
      assert Lower(s)[1..] == Lower(s[1..]);
      LineEndLower(s[1..]);
    }
  }

  /** Each line lowered. */
  function LowerAll(lines: seq<string>): (r: seq<string>)
    ensures |r| == |lines|
    ensures forall i :: 0 <= i < |lines| ==> r[i] == Lower(lines[i])
  {
    seq(|lines|, i requires 0 <= i < |lines| => Lower(lines[i]))
  }

  lemma LowerAllAppend(a: seq<string>, b: seq<string>)
    ensures LowerAll(a + b) == LowerAll(a) + LowerAll(b)
  {
  }

  /** The first line of a text with a line break, and the lines after that break. */
  lemma SplitLinesFirst(s: string)
    requires LineEnd(s) < |s|
    ensures SplitLines(s) == [s[..LineEnd(s)]] + SplitLines(s[BreakEnd(s, LineEnd(s))..])
  {
  }

  lemma BreakEndLower(s: string, k: nat)
    requires k < |s| && IsLineBreak(s[k])
    ensures BreakEnd(Lower(s), k) == BreakEnd(s, k)
  {
    assert Lower(s)[k] == s[k];
    assert k + 1 < |s| ==> Lower(s)[k + 1] == LowerChar(s[k + 1]);
  }

  lemma LowerSlices(s: string, k: nat, next: nat)
    requires k <= next <= |s|
    ensures Lower(s)[..k] == Lower(s[..k]) && Lower(s)[next..] == Lower(s[next..])
  {
  }

  /** Lowering a document lowers each of its lines and keeps the line structure. */
  lemma {:induction false} SplitLinesLower(s: string)
    ensures SplitLines(Lower(s)) == LowerAll(SplitLines(s))
    decreases |s|
  {
    if s != [] {
      var t := Lower(s);
      var k := LineEnd(s);
      LineEndLower(s);
      if k < |s| {
        var next := BreakEnd(s, k);
        var rest := SplitLines(s[next..]);
        SplitLinesFirst(s);
        SplitLinesFirst(t);
        BreakEndLower(s, k);
        LowerSlices(s, k, next);
        SplitLinesLower(s[next..]);
        LowerAllAppend([s[..k]], rest);
      } else {
        assert LowerAll([s]) == [t];
      }
    }
  }

  /** A text whose every line break is '\n' ends with one. */
  predicate EndsWithNewline(s: string) {
    s != [] && s[|s| - 1] == '\n'
  }

  /** A line with no break, followed by '\n', is the first line; the lines of the rest follow. */
  lemma SplitLinesNewline(a: string, b: string)
    requires forall i :: 0 <= i < |a| ==> !IsLineBreak(a[i])
    ensures SplitLines(a + "\n" + b) == [a] + SplitLines(b)
  {
    var s := a + "\n" + b;
    LineEndAt(s, |a|);
    assert s[..|a|] == a;
    assert s[|a| + 1..] == b;
  }

  lemma {:induction false} LineEndAt(s: string, k: nat)
    requires k < |s| && IsLineBreak(s[k])
    requires forall i :: 0 <= i < k ==> !IsLineBreak(s[i])
    ensures LineEnd(s) == k
  {
    if k > 0 {
      LineEndAt(s[1..], k - 1);
    }
  }

  /** Every line break in `s` is a '\n'. */
  predicate NewlineBreaksOnly(s: string) {
    forall i :: 0 <= i < |s| && IsLineBreak(s[i]) ==> s[i] == '\n'
  }

  /** The '\n' that `splitlines` drops from the end of `s`, if there is one. */
  function FinalNewline(s: string): (r: string)
    ensures r == "\n" <==> EndsWithNewline(s)
    ensures r == [] <==> !EndsWithNewline(s)
  {
    if EndsWithNewline(s) then "\n" else ""
  }

  /**
   * For a text whose only break character is '\n', the lines joined by "\n"
   * give back the text, up to the one final '\n' that ends the last line.
   */
  lemma {:induction false} SplitLinesJoin(s: string)
    requires NewlineBreaksOnly(s)
    ensures s == Join(SplitLines(s), "\n") + FinalNewline(s)
    decreases |s|
  {
    if s != [] {
      var k := LineEnd(s);
      if k == |s| {
        LastLine(s);
      } else {
        var rest := s[k + 1..];
        NewlineSplit(s, k);
        if rest == [] {
          assert SplitLines(s) == [s[..k]];
        } else {
          NewlineBreaksOnlySuffix(s, k + 1);
          SplitLinesJoin(rest);
          JoinStep(s, k, SplitLines(rest));
        }
      }
    }
  }

  /** Joining one more line in front, across the '\n' at `k`. */
  lemma JoinStep(s: string, k: nat, lines: seq<string>)
    requires k + 1 < |s| && s[k] == '\n' && lines != []
    requires s[k + 1..] == Join(lines, "\n") + FinalNewline(s[k + 1..])
    ensures s == Join([s[..k]] + lines, "\n") + FinalNewline(s)
  {
    NewlineParts(s, k);
    JoinCons(s[..k], lines, "\n");
  }

  /** A text with no line break is one line, and it does not end with '\n'. */
  lemma LastLine(s: string)
    requires s != [] && LineEnd(s) == |s|
    ensures SplitLines(s) == [s] && Join(SplitLines(s), "\n") == s
    ensures FinalNewline(s) == []
  {
    assert !IsLineBreak(s[|s| - 1]);
  }

  /** At a '\n' break the first line ends and the lines of the rest follow. */
  lemma NewlineSplit(s: string, k: nat)
    requires k == LineEnd(s) < |s| && NewlineBreaksOnly(s)
    ensures s[k] == '\n'
    ensures SplitLines(s) == [s[..k]] + SplitLines(s[k + 1..])
  {
    var next := BreakEnd(s, k);
    assert next == k + 1;
    SplitLinesFirst(s);
  }

  /** Around a '\n' at `k`, the text is its head, the '\n' and its tail. */
  lemma NewlineParts(s: string, k: nat)
    requires k < |s| && s[k] == '\n'
    ensures s == s[..k] + "\n" + s[k + 1..]
    ensures s[k + 1..] != [] ==> EndsWithNewline(s[k + 1..]) == EndsWithNewline(s)
  {
    assert s == s[..k] + [s[k]] + s[k + 1..];
  }

  lemma NewlineBreaksOnlySuffix(s: string, n: nat)
    requires n <= |s| && NewlineBreaksOnly(s)
    ensures NewlineBreaksOnly(s[n..])
  {
    assert forall i :: 0 <= i < |s| - n ==> s[n..][i] == s[n + i];
  }

  lemma JoinCons(a: string, rest: seq<string>, sep: string)
    requires rest != []
    ensures Join([a] + rest, sep) == a + sep + Join(rest, sep)
  {
    assert ([a] + rest)[1..] == rest;
  }
}
