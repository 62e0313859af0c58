/** The comparison keys of the prediction evaluations (prompting/utils.py):
    a command line, possibly wrapped in a code fence and introduced by
    "the next command is", becomes one (name, path) pair per pipeline
    segment. The regular expressions are written out as scanners. */
module PromptUtils {
  import opened Outcomes
  import opened PyText
  import opened Seqs

  /** `CMD_NAME_RE`'s class `[a-zA-Z0-9._/\-]`. */
  predicate NameChar(c: char) {
    IsAsciiLetter(c) || IsDigit(c) || c == '.' || c == '_' || c == '/' || c == '-'
  }

  // ---------------------------------------------------------------------
  // Step 1: code fences and backticks
  // ---------------------------------------------------------------------

  /** The length of the leading match of `^```(?:bash|sh)?` (ignoring case),
      0 when `s` does not start with three backticks. */
  function OpenFence(s: string): (n: nat)
    ensures n <= |s|
  {
    if !("```" <= s) then 0
    else if StartsNoCase(s[3..], "bash") then 7
    else if StartsNoCase(s[3..], "sh") then 5
    else 3
  }

  /** `re.sub(r'^```(?:bash|sh)?|```$', '', s, flags=re.I)` on a stripped
      `s`: the opening fence and a closing three backticks that do not
      overlap it are removed. */
  function Unfence(s: string): string {
    var start := OpenFence(s);
    var end := if |s| >= start + 3 && s[|s| - 3..] == "```" then |s| - 3 else |s|;
    s[start..end]
  }

  /** A bash fence around the command is removed. */
  lemma BashFenceRemoved(body: string)
    ensures Unfence("```bash" + body + "```") == body
  {
    var s := "```bash" + body + "```";
    assert s[..3] == "```" && s[3..][..4] == "bash";
    assert s[|s| - 3..] == "```";
    assert s[7..|s| - 3] == body;
  }

  /** Text with no fence at either end is kept. */
  lemma NoFenceKept(s: string)
    requires !("```" <= s) && (|s| < 3 || s[|s| - 3..] != "```")
    ensures Unfence(s) == s
  {
  }

  // ---------------------------------------------------------------------
  // Step 2: the introductory phrase
  // ---------------------------------------------------------------------

  /** The phrases of the intro pattern, in the order the pattern tries them. */
  const INTROS: seq<string> := ["the next command", "il prossimo comando", "next command", "predicted command"]

  /** The length the optional `( is|:)` (or `( è|:)`) adds after an intro. */
  function IntroTail(s: string, italian: bool): (n: nat)
    ensures n <= |s|
  {
    if !italian && StartsNoCase(s, " is") then 3
    else if italian && StartsNoCase(s, " è") then 2
    else if ":" <= s then 1
    else 0
  }

  predicate IntroPunct(c: char) { IsSpace(c) || c == ':' || c == ',' || c == '-' }

  /** The length of the match of the intro pattern at the start of `s`, 0
      when no phrase starts it; the first phrase that matches wins, with its
      optional tail and the `[\s:,-]*` run after it. */
  function IntroLen(s: string, k: nat): (n: nat)
    requires k <= |INTROS|
    ensures n <= |s|
    decreases |INTROS| - k
  {
    if k == |INTROS| then 0
    else if StartsNoCase(s, INTROS[k]) then
      var a := |INTROS[k]|;
      var b := a + IntroTail(s[a..], k == 1);
      b + Span(s[b..], IntroPunct)
    else IntroLen(s, k + 1)
  }

  /** The command text once fences, backticks and the intro are gone. */
  function CleanText(cmd: string): string {
    var s := Replace(Strip(Unfence(Strip(cmd))), "`", "");
    Strip(s[IntroLen(s, 0)..])
  }

  // ---------------------------------------------------------------------
  // Steps 4 to 7: one pipeline segment
  // ---------------------------------------------------------------------

  /** The end of a `<[^>]+>` match starting at `s[0] == '<'`: just past the
      first `>` after at least one other character, if there is one. */
  function PlaceholderEnd(s: string): (e: nat)
    requires s != [] && s[0] == '<'
    ensures e == 0 || (2 < e <= |s| && s[e - 1] == '>')
  {
    if |s| < 2 || s[1] == '>' then 0
    else
      var q := Find(s[1..], ">");
      if q < 0 then 0 else q + 2
  }

  /** `PLACEHOLDER_RE.sub("", s)`: every `<...>` with a non-empty inside removed. */
  function DropPlaceholders(s: string): string
    decreases |s|
  {
    if s == [] then []
    else if s[0] == '<' && PlaceholderEnd(s) > 0 then DropPlaceholders(s[PlaceholderEnd(s)..])
    else [s[0]] + DropPlaceholders(s[1..])
  }

  /** The index of the first `>` in `s`, or `|s|` when there is none. */
  function FirstRedirect(s: string): (q: nat)
    ensures q <= |s| && '>' !in s[..q]
    ensures q < |s| ==> s[q] == '>'
    decreases |s|
  {
    if s == [] || s[0] == '>' then 0
    else
      var q := FirstRedirect(s[1..]);
      assert s[..q + 1] == [s[0]] + s[1..][..q];
      q + 1
  }

  /** `re.split(r"\s*>\s*|\s*2>\s*|\s*>>\s*", s)[0].strip()`: the leftmost
      match belongs to the first `>`; when a `2` stands right before it the
      `2>` alternative starts one character earlier. Whitespace the match
      takes before it is stripped anyway. */
  function BeforeRedirect(s: string): (r: string)
    ensures r <= s && '>' !in r
    ensures |r| >= |s| ==> '>' !in s
  {
    var q := FirstRedirect(s);
    var cut := if 0 < q < |s| && s[q - 1] == '2' then q - 1 else q;
    assert s[..cut] <= s[..q];
    s[..cut]
  }

  /** The end of the run of characters other than a space that starts at `k`. */
  function RunEnd(s: string, k: nat): (n: nat)
    requires k <= |s|
    ensures k <= n <= |s|
    ensures forall i :: k <= i < n ==> s[i] != ' '
    ensures n == |s| || s[n] == ' '
    decreases |s| - k
  {
    if k == |s| || s[k] == ' ' then k else RunEnd(s, k + 1)
  }

  /** The length of a `PATH_RE` match at the start of `s`: `/`, `../` or
      `./` (two dots are tried before one), then at least one character
      other than a space, as many as there are. */
  function PathMatch(s: string): (n: nat)
    ensures n <= |s|
    ensures n > 0 ==> ("/" <= s[..n] || "./" <= s[..n] || "../" <= s[..n])
    ensures forall i :: 0 <= i < n ==> s[i] != ' '
  {
    var lead := if "/" <= s then 1 else if "../" <= s then 3 else if "./" <= s then 2 else 0;
    if lead == 0 then 0
    else
      var n := RunEnd(s, lead);
      if n == lead then 0
      else
        assert s[..n][..lead] == s[..lead];
        n
  }

  /** `PATH_RE.search(s).group(0)`, or "" when nothing matches: the match
      at the leftmost position that has one. */
  function SearchPath(s: string): (r: string)
    ensures r == "" || "/" <= r || "./" <= r || "../" <= r
    ensures forall i :: 0 <= i < |r| ==> r[i] != ' '
    ensures forall c :: c in r ==> c in s
    decreases |s|
  {
    if s == [] then ""
    else if PathMatch(s) > 0 then s[..PathMatch(s)]
    else
      var r := SearchPath(s[1..]);
      assert forall c :: c in s[1..] ==> c in s;
      r
  }

  /** The (name, path) pair of one non-blank segment. */
  function SegmentKey(seg: string): (string, string) {
    var clean := Strip(BeforeRedirect(Strip(DropPlaceholders(seg))));
    (Lower(clean[..Span(clean, NameChar)]), SearchPath(clean))
  }

  /** The keys of a cleaned pipeline: it is split at every `|`
      (`re.split(r"\s*\|\s*", s)` followed by `strip()` yields the same
      stripped segments), blank segments are skipped and every other one
      gives its key. */
  function PipelineKeys(text: string): seq<(string, string)> {
    Map(StrippedNonEmpty(SplitOn(text, '|')), SegmentKey)
  }

  /** `normalize_for_compare(cmd)`. */
  function NormalizeForCompare(cmd: string): seq<(string, string)> {
    if cmd == "" then [] else PipelineKeys(CleanText(cmd))
  }

  /** The normalised form of every candidate, `[normalize_for_compare(c) for c in cands]`. */
  function CandidateKeys(cands: seq<string>): (r: seq<seq<(string, string)>>)
    ensures |r| == |cands|
    ensures forall j :: 0 <= j < |cands| ==> r[j] == NormalizeForCompare(cands[j])
  {
    if cands == [] then [] else [NormalizeForCompare(cands[0])] + CandidateKeys(cands[1..])
  }

  /** Nothing is left of a blank command once it is cleaned. */
  lemma CleanTextBlank(cmd: string)
    requires AllSpace(cmd)
    ensures CleanText(cmd) == ""
  {
    StripEmptyIffAllSpace(cmd);
    var a := Strip(cmd);
    assert a == "";
    var b := Unfence(a);
    assert b == "";
    var c := Strip(b);
    assert c == "";
    var d := Replace(c, "`", "");
    assert d == "";
    assert d[IntroLen(d, 0)..] == "";
  }

  /** A blank command has no segment, hence no key. */
  lemma NormalizeBlank(cmd: string)
    requires AllSpace(cmd)
    ensures NormalizeForCompare(cmd) == []
  {
    if cmd != "" {
      CleanTextBlank(cmd);
      NoKeysOfEmpty();
    }
  }

  lemma NoKeysOfEmpty()
    ensures PipelineKeys("") == []
  {
    assert SplitOn("", '|') == [""];
    assert StrippedNonEmpty([""]) == [];
  }

  /** A command name: a lower-case run of name characters. */
  predicate GoodName(name: string) {
    forall i :: 0 <= i < |name| ==> NameChar(name[i]) && !('A' <= name[i] <= 'Z')
  }

  /** A path: empty or starting with `/`, `./` or `../`, with no space and no
      `>`, since everything from the first redirection on is dropped. */
  predicate GoodPath(path: string) {
    (path == "" || "/" <= path || "./" <= path || "../" <= path)
    && (forall i :: 0 <= i < |path| ==> path[i] != ' ') && '>' !in path
  }

  predicate GoodKey(key: (string, string)) {
    GoodName(key.0) && GoodPath(key.1)
  }

  /** Every character of `Strip(s)` comes from `s`. */
  lemma StripInside(s: string)
    ensures forall c :: c in Strip(s) ==> c in s
  {
    var l := LStrip(s);
    LStripSuffix(s);
    assert forall c :: c in RStrip(l) ==> c in l;
    assert forall c :: c in l ==> c in s;
  }

  /** The lower-cased prefix of name characters is a good name. */
  lemma LowerNameGood(clean: string)
    ensures GoodName(Lower(clean[..Span(clean, NameChar)]))
  {
    var t := clean[..Span(clean, NameChar)];
    forall i | 0 <= i < |t| ensures NameChar(Lower(t)[i]) && !('A' <= Lower(t)[i] <= 'Z') {
      assert NameChar(t[i]);
    }
  }

  lemma SegmentKeyGood(seg: string)
    ensures GoodKey(SegmentKey(seg))
  {
    var before := BeforeRedirect(Strip(DropPlaceholders(seg)));
    var clean := Strip(before);
    StripInside(before);
    LowerNameGood(clean);
  }

  /** Every key of a pipeline is well formed. */
  lemma PipelineKeysGood(text: string)
    ensures forall k :: 0 <= k < |PipelineKeys(text)| ==> GoodKey(PipelineKeys(text)[k])
  {
    var segs := StrippedNonEmpty(SplitOn(text, '|'));
    forall k | 0 <= k < |segs| ensures GoodKey(SegmentKey(segs[k])) {
      SegmentKeyGood(segs[k]);
    }
  }

  /** Every key `normalize_for_compare` produces is well formed. */
  lemma NormalizeGood(cmd: string)
    ensures forall k :: 0 <= k < |NormalizeForCompare(cmd)| ==> GoodKey(NormalizeForCompare(cmd)[k])
  {
    if cmd != "" {
      PipelineKeysGood(CleanText(cmd));
    }
  }

  /** The name is the lower-cased longest run of name characters that starts
      the cleaned segment. */
  lemma SegmentName(seg: string)
    ensures var clean := Strip(BeforeRedirect(Strip(DropPlaceholders(seg))));
      var name := SegmentKey(seg).0;
      |name| <= |clean| && name == Lower(clean[..|name|])
      && (forall i :: 0 <= i < |name| ==> NameChar(clean[i]))
      && (|name| == |clean| || !NameChar(clean[|name|]))
  {
  }

  /** Text that starts with none of the intro phrases loses nothing. */
  lemma NoIntroKept(s: string, k: nat)
    requires k <= |INTROS|
    requires forall j :: k <= j < |INTROS| ==> !StartsNoCase(s, INTROS[j])
    ensures IntroLen(s, k) == 0
    decreases |INTROS| - k
  {
    if k < |INTROS| {
      NoIntroKept(s, k + 1);
    }
  }

  /** "The next command is: " (in any case) in front of the command is
      removed with the colon and the spaces after it. */
  lemma IntroDropped(phrase: string, rest: string)
    requires StartsNoCase(phrase, "the next command is:") && |phrase| == 20
    requires rest == [] || !IntroPunct(rest[0])
    ensures var s := phrase + " " + rest; s[IntroLen(s, 0)..] == rest
  {
    var s := phrase + " " + rest;
    assert StartsNoCase(s, INTROS[0]);
    var t := s[16..];
    assert t[..3] == phrase[16..19];
    assert StartsNoCase(t, " is");
    var b := 19;
    assert s[b..] == [phrase[19], ' '] + rest;
    assert FoldChar(phrase[19]) == ':';
    assert phrase[19] == ':';
    SpanPrefix(s[b..], 2, IntroPunct);
  }

  // ---------------------------------------------------------------------
  // clean_ollama_candidate (also in prompting/core_rag.py)
  // ---------------------------------------------------------------------

  /** The length of a leading `\d+\.\s*`, 0 when there is none. */
  function NumberingLen(s: string): (n: nat)
    ensures n <= |s|
  {
    var d := Span(s, IsDigit);
    if d > 0 && d < |s| && s[d] == '.' then d + 1 + Span(s[d + 1..], IsSpace) else 0
  }

  /** `clean_ollama_candidate(line)`. */
  function CleanOllamaCandidate(line: string): (r: string)
    ensures r == [] || (!IsSpace(r[0]) && !IsSpace(r[|r| - 1]))
  {
    var s := Strip(line);
    Strip(StripChars(s[NumberingLen(s)..], {'`'}))
  }

  /** `Span` stops exactly at the first character that fails. */
  lemma {:induction false} SpanPrefix(s: string, n: nat, p: char -> bool)
    requires n <= |s| && (forall i :: 0 <= i < n ==> p(s[i])) && (n == |s| || !p(s[n]))
    ensures Span(s, p) == n
    decreases n
  {
    if n > 0 {
      SpanPrefix(s[1..], n - 1, p);
    }
  }

  predicate AllDigits(s: string) {
    forall i :: 0 <= i < |s| ==> IsDigit(s[i])
  }

  /** A numbering `N. ` is one match, spaces included. */
  lemma NumberingOf(digits: string, text: string)
    requires digits != [] && AllDigits(digits)
    requires text == [] || !IsSpace(text[0])
    ensures var s := digits + ". " + text; s[NumberingLen(s)..] == text
  {
    var s := digits + ". " + text;
    SpanPrefix(s, |digits|, IsDigit);
    var rest := s[|digits| + 1..];
    assert rest == " " + text;
    assert IsSpace(rest[0]);
    SpanPrefix(rest, 1, IsSpace);
  }

  /** A stripped line that does not start with a digit is only unquoted. */
  lemma CleanUnnumbered(line: string)
    requires line == [] || (!IsSpace(line[0]) && !IsSpace(line[|line| - 1]) && !IsDigit(line[0]))
    ensures CleanOllamaCandidate(line) == Strip(StripChars(line, {'`'}))
  {
    StripOfStripped(line);
  }

  /** The numbering of a numbered stripped line is dropped: the line cleans
      to what its text alone cleans to. */
  lemma CleanDropsNumbering(digits: string, text: string)
    requires digits != [] && AllDigits(digits)
    requires text != [] && !IsSpace(text[0]) && !IsSpace(text[|text| - 1])
    ensures CleanOllamaCandidate(digits + ". " + text) == Strip(StripChars(text, {'`'}))
  {
    var s := digits + ". " + text;
    assert s[0] == digits[0] && s[|s| - 1] == text[|text| - 1];
    StripOfStripped(s);
    NumberingOf(digits, text);
  }
}
