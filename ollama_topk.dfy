/** The stand-alone top-k evaluation against a local model
    (evaluate_ollama_topk.py): every command of every recorded session after
    the first becomes a prediction step, the model's answer is cut into at
    most `k` candidate lines, and a candidate hits when its command name and
    path agree with the expected command's. */
module OllamaTopK {
  import opened Outcomes
  import opened PyText
  import opened Seqs
  import opened JsonValue
  import opened Windows
  import PromptUtils
  import TopK

  // ---------------------------------------------------------------------
  // normalize_for_compare: one (name, path) pair
  // ---------------------------------------------------------------------

  /** The characters `PATH_RE`'s class `[^ \t\n\r]` excludes. */
  predicate PathStop(c: char) { c == ' ' || c == '\t' || c == '\n' || c == '\r' }

  /** The length of a `PATH_RE` match at the start of `s`: `/`, `./` or `~`,
      then at least one character outside the class, as many as there are;
      0 when none of the three alternatives matches. */
  function PathMatch(s: string): (n: nat)
    ensures n <= |s|
    ensures n > 0 ==> n >= 2 && ("/" <= s[..n] || "./" <= s[..n] || "~" <= s[..n])
    ensures forall i :: 0 <= i < n ==> !PathStop(s[i])
  {
    var lead := if "/" <= s then 1 else if "./" <= s then 2 else if "~" <= s then 1 else 0;
    if lead == 0 then 0
    else
      var run := Span(s[lead..], c => !PathStop(c));
      var n := lead + run;
      if run == 0 then 0
      else
        assert forall i :: lead <= i < n ==> s[i] == s[lead..][i - lead];
        assert s[..n][..lead] == s[..lead];
        n
  }

  /** `PATH_RE.search(s).group(0)`, or "" when nothing matches: the match at
      the leftmost position that has one. */
  function SearchPath(s: string): (r: string)
    ensures r == "" || (|r| >= 2 && ("/" <= r || "./" <= r || "~" <= r))
    ensures forall i :: 0 <= i < |r| ==> !PathStop(r[i])
    ensures Contains(s, r)
    decreases |s|
  {
    if s == [] then ""
    else if PathMatch(s) > 0 then s[..PathMatch(s)]
    else SearchPath(s[1..])
  }

  /** The command text the pair is read from: stripped, the fence of
      `^```(?:bash|sh)?|```$` and every backtick removed, stripped again, and
      the introductory phrase removed. */
  function Cleaned(cmd: string): (s: string)
    ensures s == [] || (!IsSpace(s[0]) && !IsSpace(s[|s| - 1]))
  {
    var t := Strip(Replace(Strip(PromptUtils.Unfence(Strip(cmd))), "`", ""));
    Strip(t[PromptUtils.IntroLen(t, 0)..])
  }

  /** The first word of a text that starts with a visible character is its
      leading run of non-blank characters. */
  lemma FirstWord(s: string)
    requires s != [] && !IsSpace(s[0])
    ensures SplitWs(s) != [] && SplitWs(s)[0] == s[..WordLen(s)] && WordLen(s) > 0
  {
    assert LStrip(s) == s;
  }

  /** `normalize_for_compare(cmd)`: always one pair, the lower-cased first
      word of the cleaned text and its first `/...`, `./...` or `~...` run,
      each "" when missing (`NormalizeForCompareSpec` says which). */
  function NormalizeForCompare(cmd: string): (string, string) {
    if cmd == "" then ("", "")
    else
      var s := Cleaned(cmd);
      (Lower(s[..WordLen(s)]), SearchPath(s))
  }

  /** Empty input gives `("", "")`; otherwise the name is the lower-cased
      first word of the cleaned text (`^[^\s]+`, then `split()[0].lower()`),
      empty only when nothing is left, and the path is a run of the cleaned
      text with no blank in it. */
  lemma NormalizeForCompareSpec(cmd: string)
    ensures var key := NormalizeForCompare(cmd);
      (cmd == "" ==> key == ("", ""))
      && (cmd != "" ==> (key.0 == "" <==> Cleaned(cmd) == ""))
      && (cmd != "" && Cleaned(cmd) != "" ==> key.0 == Lower(SplitWs(Cleaned(cmd))[0]))
      && (forall i :: 0 <= i < |key.1| ==> !PathStop(key.1[i]))
      && (cmd != "" ==> Contains(Cleaned(cmd), key.1))
      && NoSpace(key.0)
      && (key.1 == "" || (|key.1| >= 2 && ("/" <= key.1 || "./" <= key.1 || "~" <= key.1)))
  {
    var s := Cleaned(cmd);
    if cmd != "" {
      if s != [] {
        FirstWord(s);
      }
      LowerWordNoSpace(s);
    }
  }

  /** Lower-casing the first word keeps it free of blanks. */
  lemma LowerWordNoSpace(s: string)
    ensures NoSpace(Lower(s[..WordLen(s)]))
  {
    var w := s[..WordLen(s)];
    forall i | 0 <= i < |w| ensures !IsSpace(Lower(w)[i]) {
      assert !IsSpace(w[i]);
    }
  }

  // ---------------------------------------------------------------------
  // candidate_lines_from_response
  // ---------------------------------------------------------------------

  /** The optional `(?:bash|sh)` after an opening fence, ignoring case. */
  function LangLen(s: string): (n: nat)
    ensures n <= |s|
  {
    if StartsNoCase(s, "bash") then 4 else if StartsNoCase(s, "sh") then 2 else 0
  }

  /** The text between the fences of the leftmost match of
      ```` ```(?:bash|sh)?\s*(.*?)\s*``` ```` (dot matching newlines), before
      it is stripped. The leftmost match opens at the first three backticks:
      when no later three backticks close it, no position does. */
  function FenceBody(s: string): Option<string> {
    match FenceSpan(s)
      case None => None
      case Some((a, b)) => Some(s[a..b])
  }

  /** Where the body of the leftmost fenced block starts and ends. */
  function FenceSpan(s: string): (r: Option<(nat, nat)>)
    ensures r.Some? ==> r.value.0 <= r.value.1 <= |s|
  {
    var p := Find(s, "```");
    if p < 0 then None
    else
      var g := p + 3 + LangLen(s[p + 3..]);
      var c := Find(s[g..], "```");
      if c < 0 then None
      else Some((g, g + c))
  }

  /** The fenced body is a slice of the response. */
  lemma FenceBodyInside(s: string)
    ensures FenceBody(s).Some? ==> Contains(s, FenceBody(s).value)
  {
    match FenceSpan(s)
      case None =>
      case Some((a, b)) => ContainsSlice(s, a, b);
  }

  /** The length of the leading match of `^\s*\d+[\)\.\-]?\s*` (a list
      number such as "1) ", "2. " or "3-"), 0 when there is no digit. */
  function NumberPrefix(ln: string): (n: nat)
    ensures n <= |ln|
  {
    var a := Span(ln, IsSpace);
    var d := Span(ln[a..], IsDigit);
    if d == 0 then 0
    else
      var b := a + d;
      var e := if b < |ln| && (ln[b] == ')' || ln[b] == '.' || ln[b] == '-') then b + 1 else b;
      e + Span(ln[e..], IsSpace)
  }

  /** The `cleaned` list: each line without its list number, stripped,
      kept when something is left. */
  function Renumbered(lines: seq<string>): (r: seq<string>)
    ensures |r| <= |lines|
    ensures forall j :: 0 <= j < |r| ==> r[j] != ""
  {
    if lines == [] then []
    else
      var c := Strip(lines[0][NumberPrefix(lines[0])..]);
      (if c != "" then [c] else []) + Renumbered(lines[1..])
  }

  /** `re.split(r'[,\;]\s*', s)` once every part is stripped: the text cut
      at every comma and semicolon (the blanks the pattern takes after a
      separator are stripped from the part anyway). */
  function SplitSeps(s: string): (r: seq<string>)
    ensures |r| >= 1
    ensures forall j :: 0 <= j < |r| ==> ',' !in r[j] && ';' !in r[j]
  {
    if s == [] then [""]
    else
      var rest := SplitSeps(s[1..]);
      if s[0] == ',' || s[0] == ';' then [""] + rest else [[s[0]] + rest[0]] + rest[1..]
  }

  /** The first occurrences of the candidates, in order (the `seen` loop
      without its stop at `k`). */
  function Dedup(c: seq<string>): (r: seq<string>)
    ensures Distinct(r)
    ensures forall x :: x in r <==> x in c
    ensures |r| <= |c|
  {
    if c == [] then []
    else
      var n := |c| - 1;
      assert c == c[..n] + [c[n]];
      var d := Dedup(c[..n]);
      if c[n] in d then d else d + [c[n]]
  }

  /** The position of the first occurrence of `x` in `c`. */
  function IndexOf(c: seq<string>, x: string): (i: nat)
    requires x in c
    ensures i < |c| && c[i] == x
    ensures forall j :: 0 <= j < i ==> c[j] != x
  {
    if c[0] == x then 0 else IndexOf(c[1..], x) + 1
  }

  /** A first occurrence in a prefix is the first occurrence in the whole. */
  lemma IndexOfPrefix(c: seq<string>, n: nat, x: string)
    requires n <= |c| && x in c[..n]
    ensures IndexOf(c, x) == IndexOf(c[..n], x)
  {
    var j := IndexOf(c[..n], x);
    assert c[j] == x && forall i :: 0 <= i < j ==> c[i] == c[..n][i];
  }

  /** Deduplication keeps the order of first occurrences: an earlier item of
      the result occurs first earlier in the candidates. */
  lemma {:induction false} DedupOrder(c: seq<string>)
    ensures forall i, j :: 0 <= i < j < |Dedup(c)| ==> IndexOf(c, Dedup(c)[i]) < IndexOf(c, Dedup(c)[j])
  {
    if c != [] {
      var n := |c| - 1;
      var init := c[..n];
      var d := Dedup(init);
      DedupOrder(init);
      assert c[..n] == init;
      forall x | x in d ensures IndexOf(c, x) == IndexOf(init, x) && IndexOf(init, x) < n {
        IndexOfPrefix(c, n, x);
      }
      if c[n] !in d {
        assert forall i :: 0 <= i < n ==> c[i] == init[i] && c[i] != c[n];
        assert IndexOf(c, c[n]) == n;
        var r := d + [c[n]];
        assert Dedup(c) == r;
        assert forall x :: x in r ==> x in c;
        forall i, j | 0 <= i < j < |r| ensures IndexOf(c, r[i]) < IndexOf(c, r[j]) {
          assert r[i] == d[i] && r[i] in d;
          if j < |d| {
            assert r[j] == d[j] && r[j] in d;
          }
        }
      }
    }
  }

  /** Deduplicating more candidates only extends the result. */
  lemma {:induction false} DedupPrefix(c: seq<string>, i: nat, j: nat)
    requires i <= j <= |c|
    ensures Dedup(c[..i]) <= Dedup(c[..j])
    decreases j - i
  {
    if i < j {
      DedupPrefix(c, i, j - 1);
      assert c[..j][..j - 1] == c[..j - 1];
    }
  }

  /** `candidate_lines_from_response(resp_text, k)`: at most `k` candidate
      commands. A fenced block wins; else the non-blank lines when there are
      `k` of them; else the lines without list numbers when there are `k` of
      them; else the first occurrences of those and of the comma- or
      semicolon-separated parts; else the first non-blank lines. */
  function CandidateLines(resp: string, k: int): (r: seq<string>)
    ensures resp == "" ==> r == []
    ensures 0 <= k ==> |r| <= k
  {
    if resp == "" then []
    else match FenceBody(resp)
      case Some(body) => Take(NonBlankLines(Strip(body)), k)
      case None => LineCandidates(resp, k)
  }

  /** The candidates of an answer without a fenced block. */
  function LineCandidates(resp: string, k: int): (r: seq<string>)
    ensures 0 <= k ==> |r| <= k
  {
    var lines := NonBlankLines(resp);
    if |lines| >= k then Take(lines, k)
    else
      var cleaned := Renumbered(lines);
      if |cleaned| >= k then Take(cleaned, k)
      else
        var out := Take(Dedup(cleaned + StrippedNonEmpty(SplitSeps(resp))), k);
        if out != [] then out else Take(NonBlankLines(resp), k)
  }

  /** With a fenced block the candidates are the first non-blank lines of
      the block; without one, `k` non-blank lines make the candidates the
      first `k` of them. */
  lemma CandidateLinesCases(resp: string, k: int)
    requires resp != ""
    ensures FenceBody(resp).Some? ==> CandidateLines(resp, k) <= NonBlankLines(Strip(FenceBody(resp).value))
    ensures FenceBody(resp).None? && 0 <= k <= |NonBlankLines(resp)| ==>
      CandidateLines(resp, k) == NonBlankLines(resp)[..k]
  {
  }

  /** The candidates of the separator fallback: the cleaned lines, then the
      comma- or semicolon-separated parts. */
  function SeparatorCandidates(resp: string): seq<string> {
    Renumbered(NonBlankLines(resp)) + StrippedNonEmpty(SplitSeps(resp))
  }

  /** When neither a fence nor `k` lines decide, and some candidate is
      left, the answer is the first `k` first occurrences. */
  lemma FallbackIsDedup(resp: string, k: int)
    requires resp != "" && FenceBody(resp).None?
    requires |NonBlankLines(resp)| < k
    requires Dedup(SeparatorCandidates(resp)) != []
    ensures CandidateLines(resp, k) == Take(Dedup(SeparatorCandidates(resp)), k)
  {
    assert LineCandidates(resp, k) == Take(Dedup(SeparatorCandidates(resp)), k);
  }

  /** The separator fallback: when the answer has fewer than `k` non-blank
      lines, the candidates hold no duplicate, each is a cleaned
      line or a separated part, and they keep the order of first
      occurrence. */
  lemma SeparatorFallback(resp: string, k: int)
    requires resp != "" && FenceBody(resp).None?
    requires |NonBlankLines(resp)| < k
    requires Dedup(SeparatorCandidates(resp)) != []
    ensures var cands := SeparatorCandidates(resp);
      var r := CandidateLines(resp, k);
      r <= Dedup(cands) && Distinct(r) && (forall x :: x in r ==> x in cands)
      && forall i, j :: 0 <= i < j < |r| ==> IndexOf(cands, r[i]) < IndexOf(cands, r[j])
  {
    var cands := SeparatorCandidates(resp);
    var d := Dedup(cands);
    DedupOrder(cands);
    FallbackIsDedup(resp, k);
    var r := Take(d, k);
    assert r <= d;
    assert forall i :: 0 <= i < |r| ==> r[i] == d[i];
  }

  /** `[x.strip() for x in xs if x.strip()]` distributes over a split list. */
  lemma {:induction false} StrippedNonEmptyAppend(a: seq<string>, b: seq<string>)
    ensures StrippedNonEmpty(a + b) == StrippedNonEmpty(a) + StrippedNonEmpty(b)
  {
    if a != [] {
      assert (a + b)[1..] == a[1..] + b;
      StrippedNonEmptyAppend(a[1..], b);
    } else {
      assert a + b == b;
    }
  }

  /** The `seen` loop: first occurrences, in order, until `k` are found. */
  method FirstOccurrences(cands: seq<string>, k: int) returns (out: seq<string>)
    requires k >= 1
    ensures out == Take(Dedup(cands), k)
  {
    var seen: set<string> := {};
    out := [];
    var i := 0;
    while i < |cands|
      invariant 0 <= i <= |cands|
      invariant out == Dedup(cands[..i]) && seen == Elems(out)
      invariant |out| < k
    {
      var c := cands[i];
      DedupStep(cands, i);
      if c !in seen {
        ElemsAppend(out, c);
        seen := seen + {c};
        out := out + [c];
      }
      i := i + 1;
      if |out| >= k {
        break;
      }
    }
    DedupPrefix(cands, i, |cands|);
    assert cands[..|cands|] == cands;
    TakePrefix(out, Dedup(cands), k);
  }

  /** One more candidate is kept exactly when it was not seen before. */
  lemma DedupStep(cands: seq<string>, i: nat)
    requires i < |cands|
    ensures var d := Dedup(cands[..i]);
      Dedup(cands[..i + 1]) == if cands[i] in Elems(d) then d else d + [cands[i]]
  {
    assert cands[..i + 1][..i] == cands[..i];
  }

  /** One more line extends the non-blank stripped lines by at most itself. */
  lemma StrippedNonEmptyStep(all: seq<string>, j: nat)
    requires j < |all|
    ensures StrippedNonEmpty(all[..j + 1])
      == StrippedNonEmpty(all[..j]) + (if Strip(all[j]) != "" then [Strip(all[j])] else [])
  {
    TakeSnoc(all, j);
    StrippedNonEmptyAppend(all[..j], [all[j]]);
    assert [all[j]][1..] == [];
  }

  /** Once the first `j` lines give `k` non-blank lines, or every line has
      been seen, those are the first `k` non-blank lines. */
  lemma StrippedNonEmptyTake(all: seq<string>, j: nat, k: int)
    requires j <= |all| && k >= 1
    requires |StrippedNonEmpty(all[..j])| <= k
    requires j == |all| || |StrippedNonEmpty(all[..j])| == k
    ensures Take(StrippedNonEmpty(all), k) == StrippedNonEmpty(all[..j])
  {
    SplitAt(all, j);
    StrippedNonEmptyAppend(all[..j], all[j..]);
    if j == |all| {
      assert all[j..] == [];
    }
    TakePrefix(StrippedNonEmpty(all[..j]), StrippedNonEmpty(all), k);
  }

  /** The last fallback loop: non-blank stripped lines until `k` are found. */
  method FirstLines(resp: string, k: int) returns (out: seq<string>)
    requires k >= 1
    ensures out == Take(NonBlankLines(resp), k)
  {
    var all := SplitLines(resp);
    out := [];
    var j := 0;
    while j < |all|
      invariant 0 <= j <= |all|
      invariant out == StrippedNonEmpty(all[..j]) && |out| < k
    {
      var ln := Strip(all[j]);
      StrippedNonEmptyStep(all, j);
      if ln != "" {
        out := out + [ln];
      }
      j := j + 1;
      if |out| >= k {
        break;
      }
    }
    StrippedNonEmptyTake(all, j, k);
  }

  /** The parser as the script runs it, with its two loops. */
  method CandidateLinesFromResponse(resp: string, k: int) returns (out: seq<string>)
    ensures out == CandidateLines(resp, k)
  {
    if resp == "" {
      return [];
    }
    var fence := FenceBody(resp);
    if fence.Some? {
      return Take(NonBlankLines(Strip(fence.value)), k);
    }
    var lines := NonBlankLines(resp);
    if |lines| >= k {
      return Take(lines, k);
    }
    var cleaned := Renumbered(lines);
    if |cleaned| >= k {
      return Take(cleaned, k);
    }
    out := FirstOccurrences(cleaned + StrippedNonEmpty(SplitSeps(resp)), k);
    if out == [] {
      out := FirstLines(resp, k);
    }
  }

  // ---------------------------------------------------------------------
  // The prediction steps
  // ---------------------------------------------------------------------

  /** One prediction step: the session id, the index of the last context
      command, the context and the command expected next. */
  datatype Step = Step(session: Json, index: nat, context: seq<string>, expected: string)

  /** One line of the sessions file: skipped when blank or not JSON; a JSON
      value other than an object makes `obj.get` raise; otherwise the first
      truthy of `session`, `session_id`, `id` and of `commands`, `cmds`,
      `commands_list` must both be present. */
  function SessionOf(line: string, decode: string -> Option<Json>): (r: Result<Option<(Json, Json)>>)
    ensures r.Ok? && r.value.Some? ==> Truthy(r.value.value.0) && Truthy(r.value.value.1)
    ensures AllSpace(line) ==> r == Ok(None)
    ensures r.Err? ==> Strip(line) != "" && decode(Strip(line)).Some?
    ensures Strip(line) != "" && decode(Strip(line)).Some? && !decode(Strip(line)).value.JObj? ==> r.Err?
  {
    var ln := Strip(line);
    StripEmptyIffAllSpace(line);
    if ln == "" then Ok(None)
    else match decode(ln)
      case None => Ok(None)
      case Some(obj) =>
        if !obj.JObj? then Err("AttributeError: object has no attribute 'get'")
        else
          var f := obj.fields;
          var sid := Or(Or(Get(f, "session"), Get(f, "session_id")), Get(f, "id"));
          var cmds := Or(Or(Get(f, "commands"), Get(f, "cmds")), Get(f, "commands_list"));
          if !Truthy(sid) || !Truthy(cmds) then Ok(None)
          else Ok(Some((sid, cmds)))
  }

  /** The sessions loaded from the file, in file order, or the exception of
      the first line that raises. */
  function LoadSessions(lines: seq<string>, decode: string -> Option<Json>): (r: Result<seq<(Json, Json)>>)
    ensures r.Ok? ==> |r.value| <= |lines|
    ensures r.Ok? ==> forall j :: 0 <= j < |r.value| ==> Truthy(r.value[j].0) && Truthy(r.value[j].1)
  {
    if lines == [] then Ok([])
    else match LoadSessions(lines[..|lines| - 1], decode)
      case Err(e) => Err(e)
      case Ok(init) =>
        match SessionOf(lines[|lines| - 1], decode)
        case Err(e) => Err(e)
        case Ok(None) => Ok(init)
        case Ok(Some(s)) => Ok(init + [s])
  }

  /** The steps of the first `n` transitions of a session. */
  function SessionSteps(sid: Json, cmds: seq<string>, n: nat, L: int): (r: seq<Step>)
    requires n < |cmds|
    ensures |r| == n
    ensures forall i :: 0 <= i < n ==> r[i] == Step(sid, i, Window(cmds, i, L), cmds[i + 1])
  {
    if n == 0 then [] else SessionSteps(sid, cmds, n - 1, L) + [Step(sid, n - 1, Window(cmds, n - 1, L), cmds[n])]
  }

  /** The steps of all sessions, session by session. */
  function AllSteps(sessions: seq<(Json, seq<string>)>, L: int): (r: seq<Step>)
    requires forall j :: 0 <= j < |sessions| ==> sessions[j].1 != []
  {
    if sessions == [] then []
    else
      var last := sessions[|sessions| - 1];
      AllSteps(sessions[..|sessions| - 1], L) + SessionSteps(last.0, last.1, |last.1| - 1, L)
  }

  /** `t` is the step of transition `t.index` of the session `(sid, cmds)`. */
  predicate StepOf(t: Step, sid: Json, cmds: seq<string>, L: int) {
    t.index + 1 < |cmds| && t.session == sid
    && t.context == Window(cmds, t.index, L) && t.expected == cmds[t.index + 1]
  }

  /** Every step comes from one session: its context is the window of at
      most `L` commands that ends at its index, so it is not empty, and the
      expected command is the one after the index. */
  lemma {:induction false} AllStepsShape(sessions: seq<(Json, seq<string>)>, L: int, t: Step)
    requires L >= 1 && forall j :: 0 <= j < |sessions| ==> sessions[j].1 != []
    requires t in AllSteps(sessions, L)
    ensures exists j :: 0 <= j < |sessions| && StepOf(t, sessions[j].0, sessions[j].1, L)
    ensures t.context != [] && |t.context| <= L
  {
    var n := |sessions| - 1;
    var last := sessions[n];
    var init := sessions[..n];
    if t in AllSteps(init, L) {
      AllStepsShape(init, L, t);
      var j :| 0 <= j < |init| && StepOf(t, init[j].0, init[j].1, L);
      assert sessions[j] == init[j];
    } else {
      SessionStepShape(last.0, last.1, L, t);
    }
  }

  /** A step of one session is the step of one of its transitions. */
  lemma SessionStepShape(sid: Json, cmds: seq<string>, L: int, t: Step)
    requires L >= 1 && cmds != [] && t in SessionSteps(sid, cmds, |cmds| - 1, L)
    ensures StepOf(t, sid, cmds, L) && t.context != [] && |t.context| <= L
  {
    var steps := SessionSteps(sid, cmds, |cmds| - 1, L);
    var i :| 0 <= i < |steps| && steps[i] == t;
    assert t == Step(sid, i, Window(cmds, i, L), cmds[i + 1]);
    TransitionStep(sid, cmds, i, L);
  }

  /** The step built for transition `i` is a step of that transition. */
  lemma TransitionStep(sid: Json, cmds: seq<string>, i: nat, L: int)
    requires L >= 1 && i + 1 < |cmds|
    ensures var t := Step(sid, i, Window(cmds, i, L), cmds[i + 1]);
      StepOf(t, sid, cmds, L) && t.context != [] && |t.context| <= L
  {
    WindowShape(cmds, i, L);
  }

  /** A truthy value has a length of at least one, when it has a length. */
  lemma TruthyLen(j: Json)
    requires Truthy(j)
    ensures Len(j).Some? ==> Len(j).value >= 1
  {
  }

  /** The step list, or the exit the script takes before evaluating: a
      missing file, a line that raises, no session, an unreachable model
      (`ping` is the error the first call raised, if any), or commands the
      step loop cannot measure or slice. */
  function PrepareSteps(path: string, files: map<string, seq<string>>, decode: string -> Option<Json>,
                        ping: Option<string>, L: int): (r: Result<seq<Step>>)
    ensures path !in files ==> r == Err("Sessions file not found: " + path)
    ensures r.Ok? ==> ping.None?
  {
    if path !in files then Err("Sessions file not found: " + path)
    else match LoadSessions(files[path], decode)
      case Err(e) => Err(e)
      case Ok(sessions) =>
        if sessions == [] then Err("No sessions loaded.")
        else if ping.Some? then Err("Unable to contact Ollama: " + ping.value)
        else
          assert forall j :: 0 <= j < |sessions| ==> Len(sessions[j].1).Some? ==> Len(sessions[j].1).value >= 1 by {
            forall j | 0 <= j < |sessions| { TruthyLen(sessions[j].1); }
          }
          match CommandLists(sessions, 1)
          case Err(e) => Err(e)
          case Ok(cmdSessions) => Ok(AllSteps(cmdSessions, L))
  }

  /** `tasks[:n]` after `random.shuffle(tasks)` when `n > 0`; `shuffled` is
      the order the shuffle produced. The script repeats the selection of
      prompting/core_topk.py (`TopK.Select`) on its own step type. */
  function SelectSteps(steps: seq<Step>, shuffled: seq<Step>, n: int): (r: seq<Step>)
    requires multiset(shuffled) == multiset(steps)
    ensures n > 0 ==> |r| <= n && multiset(r) <= multiset(steps)
    ensures n <= 0 ==> r == steps
  {
    if n > 0 then
      var r := Take(shuffled, n);
      assert shuffled == r + shuffled[|r|..];
      r
    else steps
  }

  // ---------------------------------------------------------------------
  // Scoring
  // ---------------------------------------------------------------------

  /** The comparison of `main`: the same non-empty name, and when the
      expected command has a path, the same path or a non-empty candidate
      path that the expected path starts with. */
  predicate KeyHit(cand: (string, string), exp: (string, string)) {
    cand.0 == exp.0 && cand.0 != ""
    && (exp.1 != "" ==> cand.1 == exp.1 || (cand.1 != "" && cand.1 <= exp.1))
  }

  /** This comparison is stricter than the one of prompting/core_topk.py:
      every hit here is a hit there, but a candidate path that extends the
      expected one is a hit only there. */
  lemma KeyHitOneWay(cand: (string, string), exp: (string, string))
    ensures KeyHit(cand, exp) ==> TopK.KeyHit(cand, exp)
    ensures !KeyHit(("cat", "/etc/passwd"), ("cat", "/etc")) && TopK.KeyHit(("cat", "/etc/passwd"), ("cat", "/etc"))
  {
    assert !("/etc/passwd" <= "/etc");
    assert "/etc" <= "/etc/passwd";
  }

  /** The 1-based rank of the first candidate key that hits, 0 for none. */
  function HitRank(keys: seq<(string, string)>, exp: (string, string)): (r: nat)
    ensures r <= |keys|
    ensures r > 0 ==> KeyHit(keys[r - 1], exp)
    ensures forall j :: 0 <= j < (if r == 0 then |keys| else r - 1) ==> !KeyHit(keys[j], exp)
  {
    if keys == [] then 0
    else if KeyHit(keys[0], exp) then 1
    else
      var r := HitRank(keys[1..], exp);
      if r == 0 then 0 else r + 1
  }

  /** `HitRank` is the only rank whose candidate hits with no hit before it. */
  lemma HitRankIsFirst(keys: seq<(string, string)>, exp: (string, string), rank: nat)
    requires rank <= |keys|
    requires rank > 0 ==> KeyHit(keys[rank - 1], exp)
    requires forall j :: 0 <= j < (if rank == 0 then |keys| else rank - 1) ==> !KeyHit(keys[j], exp)
    ensures rank == HitRank(keys, exp)
  {
  }

  /** The keys of the candidates, in rank order. */
  function CandidateKeys(cands: seq<string>): (r: seq<(string, string)>)
    ensures |r| == |cands|
    ensures forall j :: 0 <= j < |cands| ==> r[j] == NormalizeForCompare(cands[j])
  {
    seq(|cands|, j requires 0 <= j < |cands| => NormalizeForCompare(cands[j]))
  }

  /** The record written for one step; `rank` is 0 for a miss. */
  datatype Record = Record(step: Step, candidates: seq<string>, rank: nat, error: Option<string>)

  /** The record of a step given the model's reply; a call that raised
      leaves no text to parse. */
  function RecordOf(t: Step, reply: TopK.Reply, k: int): (r: Record)
    ensures r.step == t && r.rank <= |r.candidates|
    ensures r.rank > 0 ==> KeyHit(NormalizeForCompare(r.candidates[r.rank - 1]), NormalizeForCompare(t.expected))
  {
    var raw := if reply.Answer? then reply.text else "";
    var cands := CandidateLines(raw, k);
    Record(t, cands, HitRank(CandidateKeys(cands), NormalizeForCompare(t.expected)),
           if reply.Raised? then Some(reply.error) else None)
  }

  /** The loop over the ranked candidates, with its `break` at the first
      hit; it is given the candidates' keys (the record lists them all as
      `candidates_norm`). */
  method FindHit(keys: seq<(string, string)>, exp: (string, string)) returns (rank: nat)
    ensures rank == HitRank(keys, exp)
  {
    rank := 0;
    var i := 0;
    while i < |keys|
      invariant 0 <= i <= |keys| && rank == 0
      invariant forall j :: 0 <= j < i ==> !KeyHit(keys[j], exp)
    {
      var candKey := keys[i];
      var nameMatch := candKey.0 == exp.0 && candKey.0 != "";
      var pathMatch := if exp.1 != "" then candKey.1 == exp.1 || (candKey.1 != "" && candKey.1 <= exp.1) else true;
      if nameMatch && pathMatch {
        rank := i + 1;
        break;
      }
      i := i + 1;
    }
    HitRankIsFirst(keys, exp, rank);
  }

  /** Scoring one step. */
  method ScoreStep(t: Step, reply: TopK.Reply, k: int) returns (rec: Record)
    ensures rec == RecordOf(t, reply, k)
  {
    var raw := if reply.Answer? then reply.text else "";
    var err := if reply.Raised? then Some(reply.error) else None;
    var cands := CandidateLinesFromResponse(raw, k);
    var rank := FindHit(CandidateKeys(cands), NormalizeForCompare(t.expected));
    rec := Record(t, cands, rank, err);
  }

  predicate TopKHit(r: Record) { r.rank > 0 }
  predicate Top1Hit(r: Record) { r.rank == 1 }
  predicate NonEmpty(r: Record) { r.candidates != [] }

  /** A record never ranks past its candidates. */
  predicate Consistent(r: Record) { r.rank <= |r.candidates| }

  /** A rank-1 hit is a hit, and a hit needs a candidate; the same counters
      as `TopK.CountsOrdered`, over this script's own record type. */
  lemma {:induction false} CountsOrdered(records: seq<Record>)
    requires forall j :: 0 <= j < |records| ==> Consistent(records[j])
    ensures Count(records, Top1Hit) <= Count(records, TopKHit) <= Count(records, NonEmpty)
  {
    if records != [] {
      assert Consistent(records[0]);
      CountsOrdered(records[1..]);
    }
  }

  /** How one more record moves the three counters. */
  lemma Tally(records: seq<Record>, rec: Record)
    ensures Count(records + [rec], TopKHit) == Count(records, TopKHit) + (if rec.rank > 0 then 1 else 0)
    ensures Count(records + [rec], Top1Hit) == Count(records, Top1Hit) + (if rec.rank == 1 then 1 else 0)
    ensures Count(records + [rec], NonEmpty) == Count(records, NonEmpty) + (if rec.candidates != [] then 1 else 0)
  {
    CountAppend(records, [rec], TopKHit);
    CountAppend(records, [rec], Top1Hit);
    CountAppend(records, [rec], NonEmpty);
  }

  /** Scoring one more step extends the records by its record. */
  lemma RecordsStep(steps: seq<Step>, replies: seq<TopK.Reply>, k: int, records: seq<Record>, rec: Record)
    requires |replies| == |steps| && |records| < |steps|
    requires forall j :: 0 <= j < |records| ==> records[j] == RecordOf(steps[j], replies[j], k)
    requires rec == RecordOf(steps[|records|], replies[|records|], k)
    ensures forall j :: 0 <= j < |records| + 1 ==> (records + [rec])[j] == RecordOf(steps[j], replies[j], k)
  {
  }

  /** The evaluation loop over the selected steps, given the model's reply
      to each: one record per step, each step counted at most once, so
      `top1 <= topk <= nonEmpty <= |steps|`. */
  method Evaluate(steps: seq<Step>, replies: seq<TopK.Reply>, k: int)
    returns (records: seq<Record>, topk: nat, top1: nat, nonEmpty: nat)
    requires |replies| == |steps|
    ensures |records| == |steps|
    ensures forall j :: 0 <= j < |steps| ==> records[j] == RecordOf(steps[j], replies[j], k)
    ensures topk == Count(records, TopKHit) && top1 == Count(records, Top1Hit)
    ensures nonEmpty == Count(records, NonEmpty)
    ensures top1 <= topk <= nonEmpty <= |steps|
  {
    records, topk, top1, nonEmpty := [], 0, 0, 0;
    for i := 0 to |steps|
      invariant |records| == i
      invariant forall j :: 0 <= j < i ==> records[j] == RecordOf(steps[j], replies[j], k)
      invariant topk == Count(records, TopKHit) && top1 == Count(records, Top1Hit)
      invariant nonEmpty == Count(records, NonEmpty)
    {
      var rec := ScoreStep(steps[i], replies[i], k);
      RecordsStep(steps, replies, k, records, rec);
      Tally(records, rec);
      if rec.rank > 0 {
        if rec.rank == 1 { top1 := top1 + 1; }
        topk := topk + 1;
      }
      if rec.candidates != [] { nonEmpty := nonEmpty + 1; }
      records := records + [rec];
    }
    assert forall j :: 0 <= j < |records| ==> Consistent(records[j]);
    CountsOrdered(records);
  }
}
