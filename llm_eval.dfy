/** The single-answer evaluation through a hosted chat model
    (evaluate_LLM.py): context/next pairs are read from a JSON-lines file,
    each context is sent to a chain of models until one answers, the answer
    is cut down to one command, and the command is compared with the
    expected one by exact match and by token overlap. */
module LlmEval {
  import opened Outcomes
  import opened PyText
  import opened Seqs
  import opened JsonValue

  // ---------------------------------------------------------------------
  // clean_prediction
  // ---------------------------------------------------------------------

  /** The characters `^[\-\s"\'`]*` removes from the front of the line. */
  predicate LeadJunk(c: char) { IsSpace(c) || c == '-' || c == '"' || c == '\'' || c == '`' }

  /** The alternatives of `^(the next command (is|:)|next command is|predicted
      command is|command:)\s*`, in the order the pattern tries them. */
  const PHRASES: seq<string> :=
    ["the next command is", "the next command :", "next command is", "predicted command is", "command:"]

  /** The length of the phrase match at the start of `s`, ignoring case,
      with the blanks after it; 0 when no alternative matches. */
  function PhraseLen(s: string, k: nat): (n: nat)
    requires k <= |PHRASES|
    ensures n <= |s|
    decreases |PHRASES| - k
  {
    if k == |PHRASES| then 0
    else if StartsNoCase(s, PHRASES[k]) then
      var a := |PHRASES[k]|;
      a + Span(s[a..], IsSpace)
    else PhraseLen(s, k + 1)
  }

  /** The first non-blank line with its leading dashes, blanks, quotes and
      backticks removed. */
  function FirstLine(raw: string): string
    requires NonBlankLines(raw) != []
  {
    var line := NonBlankLines(raw)[0];
    line[Span(line, LeadJunk)..]
  }

  /** The colon rule: the stripped text after the first colon when there is
      a colon and that text is not blank; without a colon, the line without
      its leading phrase. */
  function AfterColon(first: string): string {
    var i := Find(first, ":");
    if i >= 0 then
      var cand := Strip(first[i + 1..]);
      if cand != "" then cand else first
    else first[PhraseLen(first, 0)..]
  }

  /** The characters `strip(' "\'`')` removes from both ends. */
  const QUOTES: set<char> := {' ', '"', '\'', '`'}

  /** The characters `rstrip('.,;')` removes from the end. */
  const TRAILING: set<char> := {'.', ',', ';'}

  /** Quotes, backticks and blanks cut from both ends, then trailing `.,;`,
      then blanks. */
  function Trimmed(t: string): string {
    Strip(RStripChars(StripChars(t, QUOTES), TRAILING))
  }

  /** `clean_prediction(raw_text)`: "" for "", the stripped text when no line
      has a visible character, else the first non-blank line after the
      colon or phrase rule, with quotes, trailing punctuation and blanks cut
      off. */
  function CleanPrediction(raw: string): (r: string)
    ensures r == [] || (!IsSpace(r[0]) && !IsSpace(r[|r| - 1]))
  {
    if raw == "" then ""
    else if NonBlankLines(raw) == [] then Strip(raw)
    else Trimmed(AfterColon(FirstLine(raw)))
  }

  /** `s.strip(chars)` is a slice of `s`. */
  lemma StripCharsIn(s: string, chars: set<char>)
    ensures Contains(s, StripChars(s, chars))
  {
    var p := c => c in chars;
    var l := LStripBy(s, p);
    LStripBySuffix(s, p);
    var r := RStripBy(l, p);
    assert StripChars(s, chars) == r;
    ContainsSlice(s, |s| - |l|, |s|);
    assert s[|s| - |l|..|s|] == l;
    ContainsSlice(l, 0, |r|);
    assert l[0..|r|] == r;
    ContainsTransitive(s, l, r);
  }

  /** `s.strip()` is a slice of `s`. */
  lemma StripIn(s: string)
    ensures Contains(s, Strip(s))
  {
    var a := StripOffset(s);
    ContainsAt(s, Strip(s), a);
  }

  /** The stripped text after a position occurs in the line. */
  lemma TailIn(first: string, i: nat)
    requires i <= |first|
    ensures Contains(first, Strip(first[i..]))
  {
    StripIn(first[i..]);
    ContainsSuffix(first, i);
    ContainsTransitive(first, first[i..], Strip(first[i..]));
  }

  /** The cut-down line occurs in the line. */
  lemma AfterColonIn(first: string)
    ensures Contains(first, AfterColon(first))
  {
    var i := Find(first, ":");
    if i >= 0 {
      TailIn(first, i + 1);
      assert first <= first;
    } else {
      ContainsSuffix(first, PhraseLen(first, 0));
    }
  }

  /** The quotes and the punctuation removed, the line cut down to the rest
      still occurs in what was given. */
  lemma TrimmedIn(t: string)
    ensures Contains(t, Trimmed(t))
  {
    var q := StripChars(t, QUOTES);
    var u := RStripChars(q, TRAILING);
    StripCharsIn(t, QUOTES);
    ContainsSlice(q, 0, |u|);
    assert q[0..|u|] == u;
    StripIn(u);
    ContainsTransitive(q, u, Strip(u));
    ContainsTransitive(t, q, Strip(u));
  }

  /** The cleaned prediction is a piece of the model's answer, taken from
      its first non-blank line when there is one. */
  lemma CleanPredictionIn(raw: string)
    ensures Contains(raw, CleanPrediction(raw))
    ensures NonBlankLines(raw) != [] ==> Contains(FirstLine(raw), CleanPrediction(raw))
  {
    if raw == "" {
      assert "" <= raw;
    } else if NonBlankLines(raw) == [] {
      StripIn(raw);
    } else {
      var line := NonBlankLines(raw)[0];
      var first := FirstLine(raw);
      var r := CleanPrediction(raw);
      NonBlankLineIn(raw, 0);
      ContainsSuffix(line, Span(line, LeadJunk));
      AfterColonIn(first);
      TrimmedIn(AfterColon(first));
      ContainsTransitive(first, AfterColon(first), r);
      ContainsTransitive(line, first, r);
      ContainsTransitive(raw, line, r);
    }
  }

  /** When the first line has a colon followed by visible text, the
      prediction comes from that text. */
  lemma ColonRule(raw: string)
    requires NonBlankLines(raw) != []
    requires var first := FirstLine(raw); Find(first, ":") >= 0 && !AllSpace(first[Find(first, ":") + 1..])
    ensures var first := FirstLine(raw); Contains(first[Find(first, ":") + 1..], CleanPrediction(raw))
  {
    ColonPrediction(raw);
    var first := FirstLine(raw);
    StrippedTrimmedIn(first[Find(first, ":") + 1..]);
  }

  /** Under the colon rule the prediction is the trimmed text after the colon. */
  lemma ColonPrediction(raw: string)
    requires NonBlankLines(raw) != []
    requires var first := FirstLine(raw); Find(first, ":") >= 0 && !AllSpace(first[Find(first, ":") + 1..])
    ensures var first := FirstLine(raw); CleanPrediction(raw) == Trimmed(Strip(first[Find(first, ":") + 1..]))
  {
    var first := FirstLine(raw);
    ColonCandidate(first);
    PredictionOfFirst(raw);
  }

  /** Stripping and then trimming a text leaves a slice of it. */
  lemma StrippedTrimmedIn(after: string)
    ensures Contains(after, Trimmed(Strip(after)))
  {
    StripIn(after);
    TrimmedIn(Strip(after));
    ContainsTransitive(after, Strip(after), Trimmed(Strip(after)));
  }

  /** With a colon followed by a visible character, the colon rule keeps the
      stripped text after it. */
  lemma ColonCandidate(first: string)
    requires Find(first, ":") >= 0 && !AllSpace(first[Find(first, ":") + 1..])
    ensures AfterColon(first) == Strip(first[Find(first, ":") + 1..])
  {
    StripEmptyIffAllSpace(first[Find(first, ":") + 1..]);
  }

  /** Once some line is not blank, the prediction comes from the first one. */
  lemma PredictionOfFirst(raw: string)
    requires NonBlankLines(raw) != []
    ensures CleanPrediction(raw) == Trimmed(AfterColon(FirstLine(raw)))
  {
    assert raw != "";
  }

  /** The one-line answer "x. ." is its own first line. */
  lemma TrailingDotLine(raw: string)
    requires raw == "x. ."
    ensures NonBlankLines(raw) == [raw]
  {
    assert forall i :: 0 <= i < 4 ==> !IsLineBreak(raw[i]);
    assert LineLen(raw) == 4 && LineEnd(raw) == 4;
    assert raw[..4] == raw && raw[4..] == [];
    assert SplitLines(raw) == [raw];
    assert Strip(raw) == raw;
  }

  /** "x. ." has no colon and no leading phrase. */
  lemma TrailingDotPhrase(raw: string)
    requires raw == "x. ."
    ensures AfterColon(raw) == raw
  {
    ContainsFirstChar(raw, ":");
    assert ':' !in raw;
    assert PhraseLen(raw, 0) == 0;
  }

  /** Trimming "x. ." stops at the blank before the last dot. */
  lemma TrailingDotTrim(raw: string)
    requires raw == "x. ."
    ensures Trimmed(raw) == "x."
  {
    assert raw[0] !in QUOTES && raw[3] !in QUOTES;
    assert LStripBy(raw, c => c in QUOTES) == raw;
    assert RStripBy(raw, c => c in QUOTES) == raw;
    assert StripChars(raw, QUOTES) == raw;
    var u := raw[..3];
    assert raw[3] in TRAILING && u[2] !in TRAILING;
    assert RStripBy(u, c => c in TRAILING) == u;
    assert RStripBy(raw, c => c in TRAILING) == RStripBy(u, c => c in TRAILING);
    assert RStripChars(raw, TRAILING) == u;
    assert !IsSpace(u[0]) && IsSpace(u[2]) && !IsSpace(u[1]);
    assert LStrip(u) == u;
    assert RStrip(u) == RStrip(u[..2]) == u[..2];
    assert u[..2] == "x.";
  }

  /** Trailing punctuation survives when a blank stands before the last
      run of it: the trailing-punctuation rule leaves "x." of "x. .". */
  lemma TrailingDotKept(raw: string)
    requires raw == "x. ."
    ensures CleanPrediction(raw) == "x."
  {
    TrailingDotLine(raw);
    assert !LeadJunk(raw[0]);
    assert Span(raw, LeadJunk) == 0;
    var first := FirstLine(raw);
    assert first == raw;
    TrailingDotPhrase(raw);
    TrailingDotTrim(raw);
  }

  // ---------------------------------------------------------------------
  // exact_match and jaccard_tokens
  // ---------------------------------------------------------------------

  /** `exact_match(a, b)`: false when either side is empty, else the
      stripped texts are equal. */
  predicate ExactMatch(a: string, b: string) {
    if a != "" && b != "" then Strip(a) == Strip(b) else false
  }

  /** Exact match does not depend on the order of its arguments, and a
      prediction with no visible character never matches. */
  lemma ExactMatchProps(a: string, b: string)
    ensures ExactMatch(a, b) == ExactMatch(b, a)
    ensures AllSpace(a) && !AllSpace(b) ==> !ExactMatch(a, b)
  {
    StripEmptyIffAllSpace(a);
    StripEmptyIffAllSpace(b);
  }

  /** The characters of `[A-Za-z0-9_\-./]`. */
  predicate TokenChar(c: char) { IsAsciiLetter(c) || IsDigit(c) || c == '_' || c == '-' || c == '.' || c == '/' }

  /** `re.findall(r"[A-Za-z0-9_\-./]+", s)`: the maximal runs of token
      characters, left to right. */
  function TokenRuns(s: string): (r: seq<string>)
    ensures forall k :: 0 <= k < |r| ==> r[k] != [] && forall i :: 0 <= i < |r[k]| ==> TokenChar(r[k][i])
    decreases |s|
  {
    var a := Span(s, c => !TokenChar(c));
    if a == |s| then []
    else
      var n := Span(s[a..], TokenChar);
      assert s[a..][0] == s[a];
      assert forall i :: 0 <= i < n ==> s[a..a + n][i] == s[a..][i];
      [s[a..a + n]] + TokenRuns(s[a + n..])
  }

  /** The token set of a text: the runs of its lower-cased form. */
  function Tokens(s: string): set<string> {
    Elems(TokenRuns(Lower(s)))
  }

  /** A subset is no larger, and only an equal set is as large. */
  lemma {:induction false} SubsetCard<T>(a: set<T>, b: set<T>)
    requires a <= b
    ensures |a| <= |b|
    ensures |a| == |b| ==> a == b
    decreases |b|
  {
    if b != {} {
      var x :| x in b;
      SubsetCard(a - {x}, b - {x});
      assert b == (b - {x}) + {x};
      if x in a {
        assert a == (a - {x}) + {x};
      } else {
        assert a - {x} == a;
      }
    }
  }

  /** `|A∩B| / |A∪B|` for a non-empty union. */
  function Overlap(ta: set<string>, tb: set<string>): (j: real)
    requires ta + tb != {}
    ensures 0.0 <= j <= 1.0
    ensures j == 1.0 <==> ta == tb
  {
    SubsetCard(ta * tb, ta + tb);
    assert ta * tb == ta + tb ==> ta == tb;
    (|ta * tb| as real) / (|ta + tb| as real)
  }

  /** `jaccard_tokens(a, b)`: 0 when either text is empty or neither has a
      token, else the overlap of the two token sets. */
  function JaccardTokens(a: string, b: string): (j: real)
    ensures 0.0 <= j <= 1.0
    ensures a == "" || b == "" ==> j == 0.0
  {
    if a == "" || b == "" then 0.0
    else
      var ta, tb := Tokens(a), Tokens(b);
      if ta == {} && tb == {} then 0.0 else Overlap(ta, tb)
  }

  /** The score is symmetric, and it is 1 exactly when both texts are
      non-empty and have the same non-empty token set. */
  lemma JaccardProps(a: string, b: string)
    ensures JaccardTokens(a, b) == JaccardTokens(b, a)
    ensures JaccardTokens(a, b) == 1.0 <==> a != "" && b != "" && Tokens(a) == Tokens(b) && Tokens(a) != {}
  {
    if a != "" && b != "" {
      var ta, tb := Tokens(a), Tokens(b);
      assert ta * tb == tb * ta && ta + tb == tb + ta;
    }
  }

  /** Lower-casing twice is lower-casing once. */
  lemma LowerTwice(s: string)
    ensures Lower(Lower(s)) == Lower(s)
  {
    assert forall i :: 0 <= i < |s| ==> LowerChar(LowerChar(s[i])) == LowerChar(s[i]);
  }

  /** The score ignores the case of ASCII letters. */
  lemma JaccardIgnoresCase(a: string, b: string)
    ensures JaccardTokens(Lower(a), b) == JaccardTokens(a, b)
  {
    LowerTwice(a);
  }

  // ---------------------------------------------------------------------
  // Pairs and the model chain
  // ---------------------------------------------------------------------

  /** One test item: the context as stored and the expected next command. */
  datatype Pair = Pair(context: Json, next: Json)

  /** One line of the data file: an object with `context` and `next` or
      `target` becomes a pair whose expected value is `next or target`;
      anything else (not JSON, not an object, keys missing) is skipped. */
  function PairOf(line: string, decode: string -> Option<Json>): (r: Option<Pair>)
    ensures r.Some? <==> (decode(line).Some? && decode(line).value.JObj?
      && "context" in decode(line).value.fields
      && ("next" in decode(line).value.fields || "target" in decode(line).value.fields))
    ensures r.Some? ==> r.value.context == decode(line).value.fields["context"]
  {
    match decode(line)
    case Some(JObj(f)) =>
      if "context" in f && ("next" in f || "target" in f)
      then Some(Pair(f["context"], Or(Get(f, "next"), Get(f, "target"))))
      else None
    case _ => None
  }

  /** The pairs of the file, in file order. */
  function LoadPairs(lines: seq<string>, decode: string -> Option<Json>): (r: seq<Pair>)
    ensures |r| <= |lines|
  {
    if lines == [] then []
    else (match PairOf(lines[0], decode) case Some(p) => [p] case None => []) + LoadPairs(lines[1..], decode)
  }

  /** Exactly the lines that make a pair contribute one, in order: the
      pairs are the lines' pairs, skipped lines left out. */
  lemma {:induction false} LoadPairsExactly(lines: seq<string>, decode: string -> Option<Json>)
    ensures forall p :: p in LoadPairs(lines, decode) <==> exists i :: 0 <= i < |lines| && PairOf(lines[i], decode) == Some(p)
  {
    if lines != [] {
      LoadPairsExactly(lines[1..], decode);
      forall p | (exists i :: 0 <= i < |lines| && PairOf(lines[i], decode) == Some(p))
        ensures p in LoadPairs(lines, decode)
      {
        var i :| 0 <= i < |lines| && PairOf(lines[i], decode) == Some(p);
        if i > 0 {
          assert lines[1..][i - 1] == lines[i];
        }
      }
      forall p | p in LoadPairs(lines, decode)
        ensures exists i :: 0 <= i < |lines| && PairOf(lines[i], decode) == Some(p)
      {
        if p !in LoadPairs(lines[1..], decode) {
          assert PairOf(lines[0], decode) == Some(p);
        } else {
          var i :| 0 <= i < |lines[1..]| && PairOf(lines[1..][i], decode) == Some(p);
          assert lines[i + 1] == lines[1..][i];
        }
      }
    }
  }

  /** The fallback models: `--fallback` cut at commas, stripped, blanks
      dropped. */
  function Fallbacks(fallback: string): seq<string> {
    StrippedNonEmpty(SplitOn(fallback, ','))
  }

  /** `model_chain`: the primary model first and only there, then the
      fallbacks other than it. */
  function ModelChain(model: string, fallback: string): (chain: seq<string>)
    ensures chain != [] && chain[0] == model
    ensures forall i :: 1 <= i < |chain| ==> chain[i] != model
    ensures forall m :: m in chain[1..] <==> m in Fallbacks(fallback) && m != model
    ensures |chain| <= |Fallbacks(fallback)| + 1
  {
    var rest := Filter(Fallbacks(fallback), m => m != model);
    assert ([model] + rest)[1..] == rest;
    [model] + rest
  }

  /** The fallbacks keep their order in the chain. */
  lemma ChainKeepsOrder(model: string, fallback: string)
    ensures ModelChain(model, fallback)[1..] == Filter(Fallbacks(fallback), m => m != model)
  {
  }

  // ---------------------------------------------------------------------
  // Calling the chain
  // ---------------------------------------------------------------------

  /** What one call of `call_openrouter` gave: a text, or no text and a
      reason. The retries and back-off inside the call are not modelled. */
  datatype CallResult = Response(text: string) | Failure(reason: string)

  /** The position of the first model that responded, `|calls|` for none. */
  function FirstResponse(calls: seq<CallResult>): (i: nat)
    ensures i <= |calls|
    ensures i < |calls| ==> calls[i].Response?
    ensures forall j :: 0 <= j < i ==> calls[j].Failure?
  {
    if calls == [] then 0
    else if calls[0].Response? then 0
    else FirstResponse(calls[1..]) + 1
  }

  /** How the chain ended for one pair. */
  datatype ChainOutcome = Answered(model: string, text: string) | AllFailed(lastError: Option<string>)

  /** The outcome of trying the models in order: the first that responds,
      or, when none does, the reason the last one gave. */
  function TryChain(chain: seq<string>, calls: seq<CallResult>): (o: ChainOutcome)
    requires |calls| == |chain|
    ensures o.Answered? <==> FirstResponse(calls) < |calls|
    ensures o.AllFailed? ==> o.lastError == if calls == [] then None else Some(calls[|calls| - 1].reason)
  {
    var i := FirstResponse(calls);
    if i < |calls| then Answered(chain[i], calls[i].text)
    else AllFailed(if calls == [] then None else Some(calls[|calls| - 1].reason))
  }

  /** The loop over the model chain, with its `break` at the first text. */
  method CallChain(chain: seq<string>, calls: seq<CallResult>) returns (o: ChainOutcome)
    requires |calls| == |chain|
    ensures o == TryChain(chain, calls)
  {
    var errorMsg: Option<string> := None;
    var i := 0;
    while i < |chain|
      invariant 0 <= i <= |chain|
      invariant forall j :: 0 <= j < i ==> calls[j].Failure?
      invariant errorMsg == if i == 0 then None else Some(calls[i - 1].reason)
    {
      match calls[i]
      case Response(text) =>
        assert FirstResponse(calls) == i by {
          FirstResponseIs(calls, i);
        }
        return Answered(chain[i], text);
      case Failure(reason) =>
        errorMsg := Some(reason);
      i := i + 1;
    }
    FirstResponseIs(calls, i);
    o := AllFailed(errorMsg);
  }

  /** A position with a response and only failures before it, or the end
      after only failures, is where `FirstResponse` stops. */
  lemma {:induction false} FirstResponseIs(calls: seq<CallResult>, i: nat)
    requires i <= |calls| && (i < |calls| ==> calls[i].Response?)
    requires forall j :: 0 <= j < i ==> calls[j].Failure?
    ensures FirstResponse(calls) == i
  {
    if calls != [] && i > 0 {
      FirstResponseIs(calls[1..], i - 1);
    }
  }

  // ---------------------------------------------------------------------
  // Entries and the summary
  // ---------------------------------------------------------------------

  /** One output record; the difflib ratio is not modelled. */
  datatype Entry = Entry(context: Json, expected: Json, predictedRaw: string, predicted: string,
                         exact: bool, jaccard: real, model: string, error: Option<string>)

  /** The two scores of a cleaned prediction against the stored expected
      value. A falsy expected value or an empty prediction scores zero; a
      truthy expected value that is not a string makes `b.strip()` raise. */
  function Score(cleaned: string, expected: Json): (r: Result<(bool, real)>)
    ensures r.Ok? ==> 0.0 <= r.value.1 <= 1.0
    ensures r.Err? <==> cleaned != "" && Truthy(expected) && !expected.JStr?
    ensures expected.JStr? ==> r == Ok((ExactMatch(cleaned, expected.s), JaccardTokens(cleaned, expected.s)))
  {
    if expected.JStr? then Ok((ExactMatch(cleaned, expected.s), JaccardTokens(cleaned, expected.s)))
    else if cleaned == "" || !Truthy(expected) then Ok((false, 0.0))
    else Err("AttributeError: object has no attribute 'strip'")
  }

  /** `"\n".join(v)` and `lines.extend(v)` go through: a string (its
      characters), an object (its keys) or a list of strings. A number,
      `true`/`false`, `null` or a list holding a non-string raises
      `TypeError`. */
  predicate Joinable(v: Json) {
    v.JStr? || v.JObj? || (v.JArr? && AllStrings(v.items).Some?)
  }

  /** `build_prompt(context, few_shot_examples)` does not raise: every
      example's context is extended into the prefix lines and its expected
      command is added to a string before the lines are joined, and then
      the context is joined. */
  predicate PromptBuilds(context: Json, fewShot: seq<Pair>) {
    && Joinable(context)
    && forall k :: 0 <= k < |fewShot| ==> Joinable(fewShot[k].context) && fewShot[k].next.JStr?
  }

  /** The few-shot examples: the first `k` pairs when `k > 0`, else none. */
  function FewShot(pairs: seq<Pair>, k: int): (r: seq<Pair>)
    ensures r <= pairs
    ensures k <= 0 ==> r == []
    ensures k > 0 ==> |r| == if k < |pairs| then k else |pairs|
  {
    if k > 0 then Take(pairs, k) else []
  }

  /** The record of one pair, given the few-shot examples and what each
      model of the chain returned. Building the prompt comes first, and
      when it raises no model is called. */
  function EntryOf(p: Pair, fewShot: seq<Pair>, chain: seq<string>, calls: seq<CallResult>, primary: string): (r: Result<Entry>)
    requires |calls| == |chain|
    ensures !PromptBuilds(p.context, fewShot) ==> r.Err?
    ensures r.Ok? ==> 0.0 <= r.value.jaccard <= 1.0
    ensures r.Ok? ==> (r.value.error.Some? <==> TryChain(chain, calls).AllFailed?)
    ensures r.Ok? && r.value.error.Some? ==> !r.value.exact && r.value.predicted == ""
  {
    if !PromptBuilds(p.context, fewShot) then Err("TypeError: sequence item: expected str instance")
    else match TryChain(chain, calls)
    case AllFailed(e) =>
      Ok(Entry(p.context, p.next, "", "", false, 0.0, primary,
               Some(if e.Some? && e.value != "" then e.value else "no_response")))
    case Answered(m, text) =>
      var cleaned := CleanPrediction(text);
      match Score(cleaned, p.next)
      case Err(e) => Err(e)
      case Ok(s) => Ok(Entry(p.context, p.next, text, cleaned, s.0, s.1, if m != "" then m else primary, None))
  }

  /** Where the prompt can be built, a pair is recorded unless an answer
      is scored against a truthy expected value that is not a string. */
  lemma EntryRaises(p: Pair, fewShot: seq<Pair>, chain: seq<string>, calls: seq<CallResult>, primary: string)
    requires |calls| == |chain|
    ensures EntryOf(p, fewShot, chain, calls, primary).Err? <==>
      !PromptBuilds(p.context, fewShot)
      || (TryChain(chain, calls).Answered?
          && Score(CleanPrediction(TryChain(chain, calls).text), p.next).Err?)
  {
  }

  /** What each pair's step gives, in pair order. */
  function Steps(pairs: seq<Pair>, fewShot: seq<Pair>, chain: seq<string>, calls: seq<seq<CallResult>>,
                 primary: string): (rs: seq<Result<Entry>>)
    requires |calls| == |pairs| && forall k :: 0 <= k < |calls| ==> |calls[k]| == |chain|
    ensures |rs| == |pairs|
    ensures forall k :: 0 <= k < |pairs| ==> rs[k] == EntryOf(pairs[k], fewShot, chain, calls[k], primary)
  {
    seq(|pairs|, k requires 0 <= k < |pairs| => EntryOf(pairs[k], fewShot, chain, calls[k], primary))
  }

  /** One pass of the loop body: the chain is called, then the answer is
      cleaned and scored. */
  method EvaluatePair(p: Pair, fewShot: seq<Pair>, chain: seq<string>, calls: seq<CallResult>, primary: string)
    returns (outcome: ChainOutcome, entry: Result<Entry>)
    requires |calls| == |chain|
    ensures outcome == TryChain(chain, calls)
    ensures entry == EntryOf(p, fewShot, chain, calls, primary)
    ensures entry.Ok? ==> (Failed(entry.value) <==> outcome.AllFailed?)
  {
    outcome := CallChain(chain, calls);
    entry := EntryOf(p, fewShot, chain, calls, primary);
  }

  /** The records of all pairs, or the first exception. */
  function Entries(pairs: seq<Pair>, fewShot: seq<Pair>, chain: seq<string>, calls: seq<seq<CallResult>>,
                   primary: string): (r: Result<seq<Entry>>)
    requires |calls| == |pairs| && forall k :: 0 <= k < |calls| ==> |calls[k]| == |chain|
    ensures r.Ok? ==> |r.value| == |pairs|
    ensures r.Ok? ==> forall k :: 0 <= k < |pairs| ==> EntryOf(pairs[k], fewShot, chain, calls[k], primary) == Ok(r.value[k])
    ensures r.Err? ==> exists k :: 0 <= k < |pairs| && EntryOf(pairs[k], fewShot, chain, calls[k], primary).Err?
  {
    Collect(Steps(pairs, fewShot, chain, calls, primary))
  }

  predicate Failed(e: Entry) { e.error.Some? }
  predicate Exact(e: Entry) { e.exact }

  /** The evaluation loop: one record per pair and the `failed` counter, or
      the exception a record raised. */
  method Evaluate(pairs: seq<Pair>, fewShot: seq<Pair>, chain: seq<string>, calls: seq<seq<CallResult>>,
                  primary: string)
    returns (r: Result<seq<Entry>>, failed: nat)
    requires |calls| == |pairs| && forall k :: 0 <= k < |calls| ==> |calls[k]| == |chain|
    ensures r == Entries(pairs, fewShot, chain, calls, primary)
    ensures r.Ok? ==> failed == Count(r.value, Failed)
  {
    ghost var rs := Steps(pairs, fewShot, chain, calls, primary);
    var results: seq<Entry> := [];
    failed := 0;
    for i := 0 to |pairs|
      invariant Collect(rs[..i]) == Ok(results)
      invariant failed == Count(results, Failed)
    {
      var outcome, entry := EvaluatePair(pairs[i], fewShot, chain, calls[i], primary);
      assert rs[i] == entry;
      CollectStep(rs, i, results);
      if entry.Err? {
        return Err(entry.error), failed;
      }
      CountAppend(results, [entry.value], Failed);
      if outcome.AllFailed? {
        failed := failed + 1;
      }
      results := results + [entry.value];
    }
    assert rs[..|pairs|] == rs;
    r := Ok(results);
  }

  /** A few-shot example whose context cannot be extended or joined, or
      whose expected command is not a string, makes building every prompt
      raise: the run ends at the first pair with no record. */
  lemma BadExampleStopsRun(pairs: seq<Pair>, fewShot: seq<Pair>, chain: seq<string>, calls: seq<seq<CallResult>>,
                           primary: string, k: nat)
    requires |calls| == |pairs| && forall j :: 0 <= j < |calls| ==> |calls[j]| == |chain|
    requires pairs != [] && k < |fewShot| && !(Joinable(fewShot[k].context) && fewShot[k].next.JStr?)
    ensures Entries(pairs, fewShot, chain, calls, primary).Err?
    ensures forall j :: 0 <= j < |pairs| ==> EntryOf(pairs[j], fewShot, chain, calls[j], primary).Err?
  {
    assert Steps(pairs, fewShot, chain, calls, primary)[0].Err?;
  }

  /** The summary figures: total, exact matches, the mean token score and
      the failures. */
  datatype Summary = Summary(total: nat, exacts: nat, avgJaccard: real, failed: nat)

  /** The sum of the token scores of the records. */
  function JaccardSum(entries: seq<Entry>): (s: real)
    requires forall k :: 0 <= k < |entries| ==> 0.0 <= entries[k].jaccard <= 1.0
    ensures 0.0 <= s <= |entries| as real
  {
    if entries == [] then 0.0 else entries[0].jaccard + JaccardSum(entries[1..])
  }

  /** A sum of scores at most 1 each, over their number, is at most 1. */
  lemma MeanAtMostOne(sum: real, n: real)
    requires 0.0 <= sum <= n && n > 0.0
    ensures 0.0 <= sum / n <= 1.0
  {
  }

  /** The summary, or the `ZeroDivisionError` the exact-match percentage
      raises when no record was made. */
  function Summarize(entries: seq<Entry>): (r: Result<Summary>)
    requires forall k :: 0 <= k < |entries| ==> 0.0 <= entries[k].jaccard <= 1.0
    ensures r.Err? <==> entries == []
    ensures r.Ok? ==> r.value.exacts <= r.value.total == |entries| && r.value.failed <= r.value.total
    ensures r.Ok? ==> 0.0 <= r.value.avgJaccard <= 1.0
  {
    if entries == [] then Err("ZeroDivisionError: division by zero")
    else
      var total := |entries|;
      var avg := JaccardSum(entries) / (total as real);
      MeanAtMostOne(JaccardSum(entries), total as real);
      Ok(Summary(total, Count(entries, Exact), avg, Count(entries, Failed)))
  }

  /** The pairs to evaluate, or the exit taken before any call: no API key,
      no data file, no valid pair. The list is `pairs[:n]`. */
  function PreparePairs(apiKey: Option<string>, path: string, files: map<string, seq<string>>,
                        decode: string -> Option<Json>, n: int): (r: Result<seq<Pair>>)
    ensures apiKey.None? || apiKey == Some("") ==> r.Err?
    ensures r.Ok? ==> path in files && r.value <= LoadPairs(files[path], decode) && LoadPairs(files[path], decode) != []
    ensures r.Ok? && n >= 0 ==> |r.value| <= n
  {
    if apiKey.None? || apiKey.value == "" then Err("Errore: variabile OPENROUTER_API_KEY non impostata.")
    else if path !in files then Err("Errore: file dati non trovato: " + path)
    else
      var pairs := LoadPairs(files[path], decode);
      if pairs == [] then Err("Nessuna coppia valida trovata.") else Ok(Take(pairs, n))
  }
}
