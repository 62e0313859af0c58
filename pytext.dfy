/** Python `str` operations used by the honeypot and the evaluation scripts.
    Strings are sequences of code points, as Python 3 strings are. */
module PyText {
  import opened Seqs

  /** `c.isspace()`: the code points Python treats as whitespace. */
  predicate IsSpace(c: char) {
    c == ' ' || '\t' <= c <= '\r' || '\U{1C}' <= c <= '\U{1F}' || c == '\U{85}' || c == '\U{A0}'
    || c == '\U{1680}' || '\U{2000}' <= c <= '\U{200A}' || c == '\U{2028}' || c == '\U{2029}'
    || c == '\U{202F}' || c == '\U{205F}' || c == '\U{3000}'
  }

  /** The line boundaries of `str.splitlines()` (`\r\n` counts as one, see `LineEnd`). */
  predicate IsLineBreak(c: char) {
    '\n' <= c <= '\r' || '\U{1C}' <= c <= '\U{1E}' || c == '\U{85}' || c == '\U{2028}' || c == '\U{2029}'
  }

  predicate IsDigit(c: char) { '0' <= c <= '9' }

  predicate IsAsciiLetter(c: char) { 'a' <= c <= 'z' || 'A' <= c <= 'Z' }

  /** `\w` restricted to ASCII: letters, digits and underscore. */
  predicate IsWordChar(c: char) { IsAsciiLetter(c) || IsDigit(c) || c == '_' }

  predicate NoSpace(s: string) {
    forall i :: 0 <= i < |s| ==> !IsSpace(s[i])
  }

  predicate AllSpace(s: string) {
    forall i :: 0 <= i < |s| ==> IsSpace(s[i])
  }

  /** Length of the longest prefix of `s` whose characters all satisfy `p`. */
  function Span(s: string, p: char -> bool): (n: nat)
    ensures n <= |s|
    ensures forall i :: 0 <= i < n ==> p(s[i])
    ensures n == |s| || !p(s[n])
  {
    if s == [] || !p(s[0]) then 0 else 1 + Span(s[1..], p)
  }

  /** `s.lstrip(chars)` with the stripped characters given by `p`. */
  function LStripBy(s: string, p: char -> bool): (r: string)
    ensures |r| <= |s|
    ensures r == [] || !p(r[0])
    ensures forall i :: 0 <= i < |s| - |r| ==> p(s[i])
  {
    if s != [] && p(s[0]) then LStripBy(s[1..], p) else s
  }

  /** What `lstrip` leaves is a suffix of `s`. */
  lemma {:induction false} LStripBySuffix(s: string, p: char -> bool)
    ensures LStripBy(s, p) == s[|s| - |LStripBy(s, p)|..]
  {
    if s != [] && p(s[0]) {
      LStripBySuffix(s[1..], p);
    }
  }

  /** `s.rstrip(chars)` with the stripped characters given by `p`. */
  function RStripBy(s: string, p: char -> bool): (r: string)
    ensures |r| <= |s| && r == s[..|r|]
    ensures r == [] || !p(r[|r| - 1])
    ensures forall i :: |r| <= i < |s| ==> p(s[i])
  {
    if s != [] && p(s[|s| - 1]) then RStripBy(s[..|s| - 1], p) else s
  }

  function StripBy(s: string, p: char -> bool): (r: string)
    ensures |r| <= |s|
    ensures r == [] || (!p(r[0]) && !p(r[|r| - 1]))
  {
    RStripBy(LStripBy(s, p), p)
  }

  /** `s.lstrip()`, `s.rstrip()` and `s.strip()` with no argument. */
  function LStrip(s: string): (r: string)
    ensures |r| <= |s|
    ensures r == [] || !IsSpace(r[0])
    ensures forall i :: 0 <= i < |s| - |r| ==> IsSpace(s[i])
  {
    LStripBy(s, IsSpace)
  }

  lemma LStripSuffix(s: string)
    ensures LStrip(s) == s[|s| - |LStrip(s)|..]
  {
    LStripBySuffix(s, IsSpace);
  }

  function RStrip(s: string): (r: string)
    ensures |r| <= |s| && r == s[..|r|]
    ensures r == [] || !IsSpace(r[|r| - 1])
    ensures forall i :: |r| <= i < |s| ==> IsSpace(s[i])
  {
    RStripBy(s, IsSpace)
  }

  function Strip(s: string): (r: string)
    ensures |r| <= |s|
    ensures r == [] || (!IsSpace(r[0]) && !IsSpace(r[|r| - 1]))
  {
    RStrip(LStrip(s))
  }

  /** `s.strip(chars)` for an explicit set of characters. */
  function StripChars(s: string, chars: set<char>): (r: string)
    ensures |r| <= |s|
    ensures r == [] || (r[0] !in chars && r[|r| - 1] !in chars)
  {
    StripBy(s, c => c in chars)
  }

  function RStripChars(s: string, chars: set<char>): (r: string)
    ensures |r| <= |s| && r == s[..|r|]
    ensures r == [] || r[|r| - 1] !in chars
    ensures forall i :: |r| <= i < |s| ==> s[i] in chars
  {
    RStripBy(s, c => c in chars)
  }

  lemma StripEmptyIffAllSpace(s: string)
    ensures Strip(s) == [] <==> AllSpace(s)
  {
    var t := LStrip(s);
    LStripSuffix(s);
    if t != [] {
      assert !IsSpace(s[|s| - |t|]);
    }
  }

  lemma StripOfStripped(s: string)
    requires s == [] || (!IsSpace(s[0]) && !IsSpace(s[|s| - 1]))
    ensures Strip(s) == s
  {
  }

  /** `s.split()` with no argument: the maximal runs of non-whitespace. */
  function SplitWs(s: string): seq<string>
    decreases |s|
  {
    var t := LStrip(s);
    if t == [] then []
    else
      var n := WordLen(t);
      [t[..n]] + SplitWs(t[n..])
  }

  /** `s.split()` is empty exactly when `s` is blank. */
  lemma SplitWsEmpty(s: string)
    ensures SplitWs(s) == [] <==> AllSpace(s)
  {
    var t := LStrip(s);
    LStripSuffix(s);
    if t != [] {
      assert !IsSpace(s[|s| - |t|]);
    }
  }

  /** Every token of `s.split()` is non-empty and free of whitespace. */
  lemma {:induction false} SplitWsTokens(s: string)
    ensures forall k :: 0 <= k < |SplitWs(s)| ==> SplitWs(s)[k] != [] && NoSpace(SplitWs(s)[k])
    decreases |s|
  {
    var t := LStrip(s);
    if t != [] {
      var n := WordLen(t);
      SplitWsTokens(t[n..]);
      var r := SplitWs(s);
      assert r == [t[..n]] + SplitWs(t[n..]);
      forall k | 0 <= k < |r| ensures r[k] != [] && NoSpace(r[k]) {
        if k > 0 { assert r[k] == SplitWs(t[n..])[k - 1]; }
      }
    }
  }

  /** A whitespace-free, non-empty string splits into itself. */
  lemma SplitWsWord(s: string)
    requires s != [] && NoSpace(s)
    ensures SplitWs(s) == [s]
  {
    assert LStrip(s) == s;
    assert WordLen(s) == |s|;
    assert s[..|s|] == s;
    assert SplitWs(s[|s|..]) == SplitWs([]) == [];
  }

  /** Length of the run of non-whitespace that starts `t`. */
  function WordLen(t: string): (n: nat)
    ensures n <= |t|
    ensures NoSpace(t[..n])
    ensures n == |t| || IsSpace(t[n])
  {
    if t == [] || IsSpace(t[0]) then 0 else 1 + WordLen(t[1..])
  }

  /** `s.split(sep)` for a one-character separator; never empty. */
  function SplitOn(s: string, sep: char): (r: seq<string>)
    ensures |r| >= 1
    ensures forall k :: 0 <= k < |r| ==> sep !in r[k]
  {
    if s == [] then [""]
    else
      var rest := SplitOn(s[1..], sep);
      if s[0] == sep then [""] + rest else [[s[0]] + rest[0]] + rest[1..]
  }

  /** `sep.join(parts)`. */
  function Join(parts: seq<string>, sep: string): (r: string)
  {
    if parts == [] then ""
    else if |parts| == 1 then parts[0]
    else parts[0] + sep + Join(parts[1..], sep)
  }

  /** Joining splits off the last part: `sep.join(p) == sep.join(p[:-1]) + sep + p[-1]`. */
  lemma {:induction false} JoinSnoc(parts: seq<string>, sep: string)
    requires |parts| >= 2
    ensures Join(parts, sep) == Join(parts[..|parts| - 1], sep) + sep + parts[|parts| - 1]
    decreases |parts|
  {
    if |parts| > 2 {
      JoinSnoc(parts[1..], sep);
      assert parts[1..][..|parts| - 2] == parts[..|parts| - 1][1..];
    } else {
      assert parts[..1] == [parts[0]];
    }
  }

  lemma {:induction false} JoinSplitOn(s: string, sep: char)
    ensures Join(SplitOn(s, sep), [sep]) == s
  {
    if s != [] {
      JoinSplitOn(s[1..], sep);
      var rest := SplitOn(s[1..], sep);
      if s[0] != sep {
        if |rest| > 1 {
          assert ([[s[0]] + rest[0]] + rest[1..])[1..] == rest[1..];
          assert Join(rest, [sep]) == rest[0] + [sep] + Join(rest[1..], [sep]);
        }
      } else {
        assert ([""] + rest)[1..] == rest;
      }
    }
  }

  /** Index just past the first line of `s` together with the line's length:
      the line ends at the first boundary, and `\r\n` is consumed as one. */
  function LineLen(s: string): (n: nat)
    ensures n <= |s|
    ensures forall i :: 0 <= i < n ==> !IsLineBreak(s[i])
    ensures n == |s| || IsLineBreak(s[n])
  {
    Span(s, c => !IsLineBreak(c))
  }

  function LineEnd(s: string): (e: nat)
    requires s != []
    ensures LineLen(s) < e <= |s| || (e == |s| && LineLen(s) == |s|)
  {
    var n := LineLen(s);
    if n == |s| then |s|
    else if s[n] == '\r' && n + 1 < |s| && s[n + 1] == '\n' then n + 2
    else n + 1
  }

  /** `s.splitlines()`: lines without their terminators; no trailing empty line. */
  function SplitLines(s: string): (r: seq<string>)
    decreases |s|
  {
    if s == [] then []
    else [s[..LineLen(s)]] + SplitLines(s[LineEnd(s)..])
  }

  /** No line `splitlines` gives holds a line break. */
  lemma {:induction false} SplitLinesNoBreak(s: string)
    ensures forall k :: 0 <= k < |SplitLines(s)| ==>
      forall i :: 0 <= i < |SplitLines(s)[k]| ==> !IsLineBreak(SplitLines(s)[k][i])
    decreases |s|
  {
    if s != [] {
      SplitLinesNoBreak(s[LineEnd(s)..]);
    }
  }

  /** `[ln.strip() for ln in s.splitlines() if ln.strip()]`, an idiom the scripts share. */
  function NonBlankLines(s: string): (r: seq<string>)
    ensures forall k :: 0 <= k < |r| ==> r[k] != [] && !IsSpace(r[k][0]) && !IsSpace(r[k][|r[k]| - 1])
  {
    StrippedNonEmpty(SplitLines(s))
  }

  /** `[x.strip() for x in xs if x.strip()]`. */
  function StrippedNonEmpty(xs: seq<string>): (r: seq<string>)
    ensures |r| <= |xs|
    ensures forall k :: 0 <= k < |r| ==> r[k] != [] && !IsSpace(r[k][0]) && !IsSpace(r[k][|r[k]| - 1])
  {
    if xs == [] then []
    else (if Strip(xs[0]) != [] then [Strip(xs[0])] else []) + StrippedNonEmpty(xs[1..])
  }

  /** A text made only of white space has no non-blank line. */
  lemma AllSpaceSlice(s: string, i: nat, j: nat)
    requires AllSpace(s) && i <= j <= |s|
    ensures AllSpace(s[i..j])
  {
    forall k | 0 <= k < j - i ensures IsSpace(s[i..j][k]) {
      assert s[i..j][k] == s[i + k];
    }
  }

  /** A text made only of white space has no non-blank line. */
  lemma {:induction false} NonBlankLinesOfBlank(s: string)
    requires AllSpace(s)
    ensures NonBlankLines(s) == []
    decreases |s|
  {
    if s != [] {
      var n, e := LineLen(s), LineEnd(s);
      AllSpaceSlice(s, 0, n);
      AllSpaceSlice(s, e, |s|);
      assert s[e..|s|] == s[e..];
      StripEmptyIffAllSpace(s[..n]);
      NonBlankLinesOfBlank(s[e..]);
      var lines := SplitLines(s);
      assert lines[0] == s[..n] && lines[1..] == SplitLines(s[e..]);
    }
  }

  /** The first line of `a + b` is the first line of `a` when `a` ends
      with a line feed. */
  lemma FirstLineOfAppend(a: string, b: string)
    requires a != [] && a[|a| - 1] == '\n'
    ensures LineLen(a) < |a| && LineLen(a + b) == LineLen(a) && LineEnd(a + b) == LineEnd(a)
  {
    var s := a + b;
    var n := LineLen(a);
    assert n < |a|;
    assert s[n] == a[n];
  }

  /** A text cut after a line feed splits into the lines of each part. */
  lemma {:induction false} SplitLinesAppend(a: string, b: string)
    requires a == [] || a[|a| - 1] == '\n'
    ensures SplitLines(a + b) == SplitLines(a) + SplitLines(b)
    decreases |a|
  {
    if a != [] {
      FirstLineOfAppend(a, b);
      var s := a + b;
      var n, e := LineLen(a), LineEnd(a);
      var first, tail := a[..n], a[e..];
      assert s[..n] == first;
      assert s[e..] == tail + b;
      assert tail == [] || tail[|tail| - 1] == '\n';
      SplitLinesAppend(tail, b);
      var l1, l2 := SplitLines(tail), SplitLines(b);
      assert SplitLines(s) == [first] + SplitLines(tail + b);
      assert SplitLines(a) == [first] + l1;
      assert [first] + (l1 + l2) == ([first] + l1) + l2;
    } else {
      assert a + b == b;
    }
  }

  /** A line without a break, ended by a line feed, is one line. */
  lemma SplitLinesOne(x: string)
    requires forall i :: 0 <= i < |x| ==> !IsLineBreak(x[i])
    ensures SplitLines(x + "\n") == [x]
  {
    var s := x + "\n";
    var n := LineLen(s);
    assert IsLineBreak(s[|x|]);
    assert n == |x|;
    assert s[..n] == x;
    assert LineEnd(s) == |s|;
    assert s[|s|..] == [];
  }

  /** Every line `splitlines` gives occurs in the text. */
  lemma {:induction false} LineIn(s: string, k: nat)
    requires k < |SplitLines(s)|
    ensures Contains(s, SplitLines(s)[k])
    decreases |s|
  {
    if k == 0 {
      FirstLineIn(s);
    } else {
      var line := LaterLine(s, k);
      LineIn(s[LineEnd(s)..], k - 1);
      SuffixLineIn(s, LineEnd(s), line);
    }
  }

  lemma SuffixLineIn(s: string, e: nat, line: string)
    requires e <= |s| && Contains(s[e..], line)
    ensures Contains(s, line)
  {
    ContainsSuffix(s, e);
    ContainsTransitive(s, s[e..], line);
  }

  lemma FirstLineIn(s: string)
    requires 0 < |SplitLines(s)|
    ensures Contains(s, SplitLines(s)[0])
  {
    assert SplitLines(s)[0] == s[..LineLen(s)];
    assert s[..LineLen(s)] <= s;
  }

  /** Line `k > 0` of `s` is line `k - 1` of what follows the first line. */
  lemma LaterLine(s: string, k: nat) returns (line: string)
    requires 0 < k < |SplitLines(s)|
    ensures s != [] && k - 1 < |SplitLines(s[LineEnd(s)..])|
    ensures line == SplitLines(s)[k] == SplitLines(s[LineEnd(s)..])[k - 1]
  {
    line := SplitLines(s)[k];
  }

  /** `s.strip()` is a slice of `s`, at offset `a`. */
  lemma StripOffset(s: string) returns (a: nat)
    ensures a + |Strip(s)| <= |s| && s[a..a + |Strip(s)|] == Strip(s)
  {
    var l := LStrip(s);
    LStripSuffix(s);
    a := |s| - |l|;
    assert l == s[a..];
    var r := RStrip(l);
    assert r == l[..|r|];
    assert s[a..a + |r|] == l[..|r|];
  }

  /** `t in s` for strings: `t` occurs in `s` as a contiguous substring. */
  predicate Contains(s: string, t: string)
    decreases |s|
  {
    t <= s || (s != [] && Contains(s[1..], t))
  }

  lemma ContainsAt(s: string, t: string, i: nat)
    requires i + |t| <= |s| && s[i..i + |t|] == t
    ensures Contains(s, t)
  {
    if i > 0 {
      assert s[1..][i - 1..i - 1 + |t|] == t;
      ContainsAt(s[1..], t, i - 1);
    }
  }

  /** `s.find(t)`: the first index where `t` occurs, or -1. */
  function Find(s: string, t: string): (r: int)
    ensures -1 <= r <= |s|
    ensures r >= 0 ==> r + |t| <= |s| && s[r..r + |t|] == t
    ensures r == -1 ==> !Contains(s, t)
    decreases |s|
  {
    if t <= s then 0
    else if s == [] then -1
    else var k := Find(s[1..], t); if k < 0 then -1 else k + 1
  }

  /** `s.rfind(t)` for a single character: the last index of `c`, or -1. */
  function RFindChar(s: string, c: char): (r: int)
    ensures -1 <= r < |s|
    ensures r >= 0 ==> s[r] == c
    ensures forall i :: r < i < |s| ==> s[i] != c
  {
    if s == [] then -1
    else if s[|s| - 1] == c then |s| - 1
    else RFindChar(s[..|s| - 1], c)
  }

  /** `s.replace(pat, rep)` for a non-empty `pat`: left-to-right, non-overlapping. */
  function Replace(s: string, pat: string, rep: string): (r: string)
    requires pat != []
    decreases |s|
  {
    if s == [] then []
    else if pat <= s then rep + Replace(s[|pat|..], pat, rep)
    else [s[0]] + Replace(s[1..], pat, rep)
  }

  /** Replacing one character by another keeps every other character and the length. */
  lemma {:induction false} ReplaceChar(s: string, a: char, b: char)
    ensures |Replace(s, [a], [b])| == |s|
    ensures forall i :: 0 <= i < |s| ==> Replace(s, [a], [b])[i] == if s[i] == a then b else s[i]
    decreases |s|
  {
    if s != [] {
      ReplaceChar(s[1..], a, b);
      assert [a] <= s <==> s[0] == a;
      var r := Replace(s, [a], [b]);
      var t := Replace(s[1..], [a], [b]);
      assert r == [if s[0] == a then b else s[0]] + t;
      forall i | 0 <= i < |s| ensures r[i] == if s[i] == a then b else s[i] {
        if i > 0 { assert r[i] == t[i - 1] && s[i] == s[1..][i - 1]; }
      }
    }
  }

  /** Replacing one character by nothing deletes exactly its occurrences. */
  lemma {:induction false} ReplaceDrop(s: string, a: char)
    ensures forall x :: x in Replace(s, [a], []) <==> x in s && x != a
    decreases |s|
  {
    if s != [] {
      ReplaceDrop(s[1..], a);
      assert [a] <= s <==> s[0] == a;
      assert s == [s[0]] + s[1..];
    }
  }

  /** `x.lower()` on one ASCII code point (other code points are unchanged). */
  function LowerChar(c: char): (r: char)
    ensures 'A' <= c <= 'Z' ==> 'a' <= r <= 'z'
    ensures !('A' <= c <= 'Z') ==> r == c
  {
    if 'A' <= c <= 'Z' then (c as int + 32) as char else c
  }

  function Lower(s: string): (r: string)
    ensures |r| == |s|
    ensures forall i :: 0 <= i < |s| ==> r[i] == LowerChar(s[i])
  {
    if s == [] then [] else [LowerChar(s[0])] + Lower(s[1..])
  }

  /** `x.upper()` on ASCII letters (other code points are unchanged). */
  function UpperChar(c: char): (r: char)
    ensures 'a' <= c <= 'z' ==> 'A' <= r <= 'Z'
    ensures !('a' <= c <= 'z') ==> r == c
  {
    if 'a' <= c <= 'z' then (c as int - 32) as char else c
  }

  function Upper(s: string): (r: string)
    ensures |r| == |s|
    ensures forall i :: 0 <= i < |s| ==> r[i] == UpperChar(s[i])
  {
    if s == [] then [] else [UpperChar(s[0])] + Upper(s[1..])
  }

  /** Case-insensitive character comparison as the regular expressions of the
      scripts use it (`re.IGNORECASE`) for the letters their patterns contain. */
  function FoldChar(c: char): char {
    if c == '\U{C8}' then '\U{E8}' else LowerChar(c)
  }

  /** `s` starts with the lower-case pattern `p`, ignoring case. */
  predicate StartsNoCase(s: string, p: string) {
    |p| <= |s| && forall i :: 0 <= i < |p| ==> FoldChar(s[i]) == p[i]
  }

  function DigitChar(d: nat): (c: char)
    requires d < 10
    ensures IsDigit(c)
  {
    ('0' as int + d) as char
  }

  /** `str(n)` for a natural number. */
  function NatToString(n: nat): (r: string)
    ensures r != []
    ensures forall i :: 0 <= i < |r| ==> IsDigit(r[i])
  {
    if n < 10 then [DigitChar(n)] else NatToString(n / 10) + [DigitChar(n % 10)]
  }

  /** White space only as single blanks between visible characters: what
      `" ".join(s.split())` and `re.sub(r"\s+", " ", s).strip()` leave. */
  predicate SingleSpaced(r: string) {
    forall i :: 0 <= i < |r| && IsSpace(r[i]) ==>
      r[i] == ' ' && 0 < i < |r| - 1 && !IsSpace(r[i - 1]) && !IsSpace(r[i + 1])
  }

  /** Joining non-empty, space-free words with one blank is single-spaced,
      and the result starts with the first word's first character. */
  lemma {:induction false} JoinWordsSingleSpaced(words: seq<string>)
    requires forall k :: 0 <= k < |words| ==> words[k] != [] && NoSpace(words[k])
    ensures SingleSpaced(Join(words, " "))
    ensures words != [] ==> Join(words, " ") != [] && Join(words, " ")[0] == words[0][0]
  {
    if |words| > 1 {
      var rest := words[1..];
      JoinWordsSingleSpaced(rest);
      var w, t := words[0], Join(rest, " ");
      var r := w + " " + t;
      assert Join(words, " ") == r;
      assert NoSpace(w) && t != [] && !IsSpace(t[0]);
      assert forall i :: 0 <= i < |w| ==> r[i] == w[i];
      forall i | 0 <= i < |r| && IsSpace(r[i])
        ensures r[i] == ' ' && 0 < i < |r| - 1 && !IsSpace(r[i - 1]) && !IsSpace(r[i + 1])
      {
        if i > |w| {
          assert r[i] == t[i - |w| - 1];
          if i - |w| - 1 > 0 {
            assert r[i - 1] == t[i - |w| - 2];
          }
          assert r[i + 1] == t[i - |w|];
        }
      }
    }
  }

  /** `" ".join(s.split())`: the words of `s` with one blank between them. */
  lemma CollapsedSingleSpaced(s: string)
    ensures SingleSpaced(Join(SplitWs(s), " "))
  {
    SplitWsTokens(s);
    JoinWordsSingleSpaced(SplitWs(s));
  }

  /** An occurrence found by `Contains` sits at some offset. */
  lemma {:induction false} ContainsOffset(s: string, t: string) returns (i: nat)
    requires Contains(s, t)
    ensures i + |t| <= |s| && s[i..i + |t|] == t
    decreases |s|
  {
    if t <= s {
      i := 0;
    } else {
      var j := ContainsOffset(s[1..], t);
      assert s[1..][j..j + |t|] == s[j + 1..j + 1 + |t|];
      i := j + 1;
    }
  }

  /** A substring of a substring of `s` is a substring of `s`. */
  lemma ContainsTransitive(s: string, u: string, t: string)
    requires Contains(s, u) && Contains(u, t)
    ensures Contains(s, t)
  {
    var o := ContainsOffset(s, u);
    var a := ContainsOffset(u, t);
    forall k | 0 <= k < |t| ensures s[o + a + k] == t[k] {
      assert t[k] == u[a + k] == s[o + a + k];
    }
    assert s[o + a..o + a + |t|] == t;
    ContainsAt(s, t, o + a);
  }

  /** Every slice of `s` occurs in `s`. */
  lemma ContainsSlice(s: string, i: nat, j: nat)
    requires i <= j <= |s|
    ensures Contains(s, s[i..j])
  {
    ContainsAt(s, s[i..j], i);
  }

  /** Every stripped line of a text occurs in the text. */
  lemma StrippedLineIn(text: string, k: nat)
    requires k < |SplitLines(text)|
    ensures Contains(text, Strip(SplitLines(text)[k]))
  {
    var line := SplitLines(text)[k];
    LineIn(text, k);
    var a := StripOffset(line);
    ContainsAt(line, Strip(line), a);
    ContainsTransitive(text, line, Strip(line));
  }

  /** Every item of `[x.strip() for x in xs if x.strip()]` is some item
      of `xs`, stripped. */
  lemma {:induction false} StrippedNonEmptySource(xs: seq<string>, k: nat) returns (j: nat)
    requires k < |StrippedNonEmpty(xs)|
    ensures j < |xs| && StrippedNonEmpty(xs)[k] == Strip(xs[j])
    decreases |xs|
  {
    var kept := Strip(xs[0]) != [];
    StrippedNonEmptyAt(xs, k);
    if kept && k == 0 {
      j := 0;
    } else {
      var j1 := StrippedNonEmptySource(xs[1..], if kept then k - 1 else k);
      j := j1 + 1;
    }
  }

  /** Item `k` of `[x.strip() for x in xs if x.strip()]`, one item of `xs` at a time. */
  lemma StrippedNonEmptyAt(xs: seq<string>, k: nat)
    requires k < |StrippedNonEmpty(xs)|
    ensures xs != []
    ensures Strip(xs[0]) != [] && k == 0 ==> StrippedNonEmpty(xs)[0] == Strip(xs[0])
    ensures Strip(xs[0]) != [] && k > 0 ==>
      k - 1 < |StrippedNonEmpty(xs[1..])| && StrippedNonEmpty(xs)[k] == StrippedNonEmpty(xs[1..])[k - 1]
    ensures Strip(xs[0]) == [] ==>
      k < |StrippedNonEmpty(xs[1..])| && StrippedNonEmpty(xs)[k] == StrippedNonEmpty(xs[1..])[k]
  {
    var head := if Strip(xs[0]) != [] then [Strip(xs[0])] else [];
    assert StrippedNonEmpty(xs) == head + StrippedNonEmpty(xs[1..]);
  }

  /** Every non-blank stripped line of a text occurs in the text. */
  lemma NonBlankLineIn(text: string, k: nat)
    requires k < |NonBlankLines(text)|
    ensures Contains(text, NonBlankLines(text)[k])
  {
    var j := StrippedNonEmptySource(SplitLines(text), k);
    StrippedLineIn(text, j);
  }

  /** Every suffix of `s` occurs in `s`. */
  lemma ContainsSuffix(s: string, i: nat)
    requires i <= |s|
    ensures Contains(s, s[i..])
  {
    assert s[i..|s|] == s[i..];
    ContainsAt(s, s[i..], i);
  }

  /** A text holding `t` holds the first character of `t`. */
  lemma ContainsFirstChar(s: string, t: string)
    ensures Contains(s, t) && t != [] ==> t[0] in s
  {
    if Contains(s, t) && t != [] {
      var i := ContainsOffset(s, t);
      assert s[i] == t[0];
    }
  }

  /** A single-spaced text has blanks only strictly inside it, and no line
      break at all. */
  lemma SingleSpacedShape(r: string)
    requires SingleSpaced(r)
    ensures r == [] || (!IsSpace(r[0]) && !IsSpace(r[|r| - 1]))
    ensures forall i :: 0 <= i < |r| ==> !IsLineBreak(r[i])
  {
    forall i | 0 <= i < |r| ensures !IsLineBreak(r[i]) {
      if IsLineBreak(r[i]) {
        assert IsSpace(r[i]);
      }
    }
  }

  /** The tail of a single-spaced text after a blank is single-spaced. */
  lemma SingleSpacedTail(s: string, n: nat)
    requires SingleSpaced(s) && n < |s| && !IsSpace(s[n])
    ensures SingleSpaced(s[n..])
  {
    var u := s[n..];
    forall i | 0 <= i < |u| && IsSpace(u[i])
      ensures u[i] == ' ' && 0 < i < |u| - 1 && !IsSpace(u[i - 1]) && !IsSpace(u[i + 1])
    {
      assert u[i] == s[n + i];
      assert i > 0;
      assert u[i - 1] == s[n + i - 1] && u[i + 1] == s[n + i + 1];
    }
  }

  /** Splitting a single-spaced text at white space and joining the words
      with one blank gives the text back. */
  lemma {:induction false} JoinSplitWsSingleSpaced(s: string)
    requires SingleSpaced(s)
    ensures Join(SplitWs(s), " ") == s
    decreases |s|
  {
    if s != [] {
      var n := WordLen(s);
      SplitWsSingleWord(s);
      if n < |s| {
        var u := s[n + 1..];
        SingleSpacedTail(s, n + 1);
        JoinSplitWsSingleSpaced(u);
        SplitWsEmpty(u);
        JoinCons(s[..n], SplitWs(u), " ");
        SplitAroundBlank(s, n);
      }
    }
  }

  /** The first word of a single-spaced text, and what follows it. */
  lemma SplitWsSingleWord(s: string)
    requires SingleSpaced(s) && s != []
    ensures WordLen(s) == |s| ==> SplitWs(s) == [s]
    ensures WordLen(s) < |s| ==>
      && 0 < WordLen(s) && WordLen(s) + 1 < |s| && s[WordLen(s)] == ' ' && !IsSpace(s[WordLen(s) + 1])
      && SplitWs(s) == [s[..WordLen(s)]] + SplitWs(s[WordLen(s) + 1..])
  {
    var n := WordLen(s);
    assert !IsSpace(s[0]);
    if n == |s| {
      assert s[..n] == s;
      SplitWsWord(s);
    } else {
      assert IsSpace(s[n]);
      SplitWsAfterWord(s, n);
    }
  }

  /** `s.split()` of a text that starts with a word followed by one blank. */
  lemma SplitWsAfterWord(s: string, n: nat)
    requires s != [] && !IsSpace(s[0]) && n == WordLen(s) && n + 1 < |s| && IsSpace(s[n]) && !IsSpace(s[n + 1])
    ensures SplitWs(s) == [s[..n]] + SplitWs(s[n + 1..])
  {
    assert LStrip(s) == s;
    var u := s[n + 1..];
    assert s[n..][1..] == u;
    assert LStrip(s[n..]) == LStrip(u) == u;
  }

  lemma JoinCons(w: string, ws: seq<string>, sep: string)
    requires ws != []
    ensures Join([w] + ws, sep) == w + sep + Join(ws, sep)
  {
    assert ([w] + ws)[1..] == ws;
  }

  lemma SplitAroundBlank(s: string, n: nat)
    requires n + 1 < |s| && s[n] == ' '
    ensures s == s[..n] + " " + s[n + 1..]
  {
  }
}
