/** The OpenRouter evaluation script (evaluate_LLM_OpenRouter.py): command
    normalisation, the word-set score, the resume keys of an earlier results
    file and the loop that scores each test item and keeps the counters. The
    model call itself is a parameter: one reply per item. */
module OpenRouterEval {
  import opened Outcomes
  import opened PyText
  import opened Seqs
  import opened JsonValue
  import LlmEval

  // ---------------------------------------------------------------------
  // normalize_cmd
  // ---------------------------------------------------------------------

  /** `s.replace("```bash", "").replace("```sh", "").replace("```", "")`. */
  function Defenced(s: string): string {
    Replace(Replace(Replace(s, "```bash", ""), "```sh", ""), "```", "")
  }

  /** `next((ln for ln in lines if ln.strip()), "")`. */
  function FirstNonBlank(lines: seq<string>): (r: string)
    ensures r == "" || Strip(r) != ""
  {
    if lines == [] then ""
    else if Strip(lines[0]) != "" then lines[0]
    else FirstNonBlank(lines[1..])
  }

  /** `normalize_cmd(s)`: "" for "", else the first non-blank line of the
      stripped text without its code fences, its words joined by one blank. */
  function NormalizeCmd(s: string): (r: string)
    ensures SingleSpaced(r)
  {
    if s == "" then ""
    else
      var first := FirstNonBlank(SplitLines(Defenced(Strip(s))));
      CollapsedSingleSpaced(first);
      Join(SplitWs(first), " ")
  }

  /** The first non-blank line, stripped, is the first entry of the
      `NonBlankLines` list; there is none exactly when that list is empty. */
  lemma {:induction false} FirstNonBlankIsFirst(lines: seq<string>)
    ensures Strip(FirstNonBlank(lines)) == "" <==> StrippedNonEmpty(lines) == []
    ensures StrippedNonEmpty(lines) != [] ==> Strip(FirstNonBlank(lines)) == StrippedNonEmpty(lines)[0]
  {
    if lines != [] {
      FirstNonBlankIsFirst(lines[1..]);
    }
  }

  /** `normalize_cmd` gives "" for "", and otherwise a stripped, one-line,
      single-spaced command that is empty exactly when the de-fenced text
      has no non-blank line. */
  lemma NormalizeCmdSpec(s: string)
    ensures NormalizeCmd("") == ""
    ensures var r := NormalizeCmd(s);
      && (r == [] || (!IsSpace(r[0]) && !IsSpace(r[|r| - 1])))
      && (forall i :: 0 <= i < |r| ==> !IsLineBreak(r[i]))
      && (r == "" <==> NonBlankLines(Defenced(Strip(s))) == [])
  {
    SingleSpacedShape(NormalizeCmd(s));
    if s != "" {
      var first := FirstNonBlank(SplitLines(Defenced(Strip(s))));
      FirstNonBlankIsFirst(SplitLines(Defenced(Strip(s))));
      StripEmptyIffAllSpace(first);
      SplitWsEmpty(first);
      SplitWsTokens(first);
      JoinWordsSingleSpaced(SplitWs(first));
    } else {
      assert SplitLines(Defenced(Strip(s))) == [];
    }
  }

  /** Replacing a pattern that does not occur changes nothing. */
  lemma {:induction false} ReplaceAbsent(s: string, pat: string, rep: string)
    requires pat != [] && !Contains(s, pat)
    ensures Replace(s, pat, rep) == s
    decreases |s|
  {
    if s != [] {
      ReplaceAbsent(s[1..], pat, rep);
    }
  }

  /** A text without a triple backtick holds no code fence of any kind. */
  lemma DefencedAbsent(s: string)
    requires !Contains(s, "```")
    ensures Defenced(s) == s
  {
    var fence: string := "```";
    var bash: string := "```bash";
    var sh: string := "```sh";
    assert bash[..3] == fence && sh[..3] == fence;
    if Contains(s, bash) {
      ContainsAt(bash, fence, 0);
      ContainsTransitive(s, bash, fence);
    }
    if Contains(s, sh) {
      ContainsAt(sh, fence, 0);
      ContainsTransitive(s, sh, fence);
    }
    ReplaceAbsent(s, bash, "");
    ReplaceAbsent(s, sh, "");
    ReplaceAbsent(s, fence, "");
  }

  /** A command already in normal form (single-spaced, no triple backtick)
      is left as it is: normalising the expected value of an item that was
      itself produced by `normalize_cmd` changes nothing. */
  lemma NormalizeCmdFixpoint(s: string)
    requires SingleSpaced(s) && !Contains(s, "```")
    ensures NormalizeCmd(s) == s
  {
    if s != "" {
      SingleSpacedShape(s);
      StripOfStripped(s);
      DefencedAbsent(s);
      assert LineLen(s) == |s|;
      assert s[..|s|] == s && s[|s|..] == [];
      assert SplitLines(s) == [s];
      assert Strip(s) != "";
      assert FirstNonBlank([s]) == s;
      JoinSplitWsSingleSpaced(s);
    }
  }

  // ---------------------------------------------------------------------
  // jaccard
  // ---------------------------------------------------------------------

  /** `set(s.split())`. */
  function Words(s: string): set<string> {
    Elems(SplitWs(s))
  }

  /** `jaccard(a, b)`: 1 when neither text has a word, 0 when exactly one
      has none, else the overlap of the two word sets. */
  function Jaccard(a: string, b: string): (j: real)
    ensures 0.0 <= j <= 1.0
  {
    var wa, wb := Words(a), Words(b);
    if wa == {} && wb == {} then 1.0
    else if wa == {} || wb == {} then 0.0
    else LlmEval.Overlap(wa, wb)
  }

  /** A text has no word exactly when it is blank. */
  lemma WordsEmpty(s: string)
    ensures Words(s) == {} <==> AllSpace(s)
  {
    SplitWsEmpty(s);
    if SplitWs(s) != [] {
      assert SplitWs(s)[0] in Words(s);
    }
  }

  /** The score is symmetric; it is 1 exactly when the word sets agree (two
      blank texts included) and 0 when exactly one text is blank. */
  lemma JaccardProps(a: string, b: string)
    ensures Jaccard(a, b) == Jaccard(b, a)
    ensures Jaccard(a, b) == 1.0 <==> Words(a) == Words(b)
    ensures AllSpace(a) && AllSpace(b) ==> Jaccard(a, b) == 1.0
    ensures AllSpace(a) != AllSpace(b) ==> Jaccard(a, b) == 0.0
  {
    WordsEmpty(a);
    WordsEmpty(b);
    var wa, wb := Words(a), Words(b);
    assert wa * wb == wb * wa && wa + wb == wb + wa;
  }

  // ---------------------------------------------------------------------
  // Items, replies and records
  // ---------------------------------------------------------------------

  /** What `call_openrouter` returns: the reply text, or the error text with
      an empty reply. */
  datatype Reply = Answer(content: string) | Failure(reason: string)

  /** One line written to the results file (the `ratio` field is not
      modelled). */
  datatype Rec = Rec(context: Json, expected: string, predictedRaw: string, predicted: string,
                     exact: bool, jaccard: real, error: Option<string>)

  /** `item.get("context") or item.get("input") or item.get("commands") or []`. */
  function ContextOf(f: map<string, Json>): Json {
    Or(Or(Or(Get(f, "context"), Get(f, "input")), Get(f, "commands")), JArr([]))
  }

  /** `item.get("next") or item.get("expected") or item.get("target") or ""`. */
  function ExpectedOf(f: map<string, Json>): Json {
    Or(Or(Or(Get(f, "next"), Get(f, "expected")), Get(f, "target")), JStr(""))
  }

  /** `"\n".join(context)` in `make_prompt` raises `TypeError` for a number,
      a boolean or a list holding something other than a string. */
  predicate JoinFails(ctx: Json) {
    ctx.JNum? || ctx.JBool? || (ctx.JArr? && AllStrings(ctx.items).None?)
  }

  /** Scoring one reply against the normalised expected command. */
  function Score(ctx: Json, expected: string, reply: Reply): (rec: Rec)
    ensures rec.context == ctx && rec.expected == expected
    ensures rec.predicted == NormalizeCmd(rec.predictedRaw)
    ensures rec.exact <==> rec.predicted == expected && expected != ""
    ensures rec.exact ==> rec.jaccard == 1.0
    ensures rec.error.Some? <==> reply.Failure?
    ensures reply.Failure? ==> rec.predicted == "" && !rec.exact
  {
    var raw := if reply.Answer? then reply.content else "";
    var predicted := NormalizeCmd(raw);
    JaccardProps(predicted, expected);
    Rec(ctx, expected, raw, predicted, predicted == expected && predicted != "", Jaccard(predicted, expected),
        if reply.Failure? then Some(reply.reason) else None)
  }

  /** One pass of the loop: `None` when the item is skipped without a call,
      the record when it is scored, or the exception it raises. */
  function StepOf(item: Json, reply: Reply, done: set<Json>): (r: Result<Option<Rec>>)
    ensures !item.JObj? ==> r.Err?
    ensures item.JObj? && (!Truthy(ContextOf(item.fields)) || !Truthy(ExpectedOf(item.fields))) ==> r == Ok(None)
    ensures item.JObj? && ExpectedOf(item.fields).JStr? && ContextOf(item.fields) in done ==> r == Ok(None)
    ensures r.Ok? && r.value.Some? ==>
      (item.JObj? && Truthy(ContextOf(item.fields)) && ContextOf(item.fields) !in done
      && ExpectedOf(item.fields).JStr?
      && r.value.value == Score(ContextOf(item.fields), NormalizeCmd(ExpectedOf(item.fields).s), reply))
  {
    if !item.JObj? then Err("AttributeError: object has no attribute 'get'")
    else
      var ctx, exp := ContextOf(item.fields), ExpectedOf(item.fields);
      if !Truthy(ctx) || !Truthy(exp) then Ok(None)
      else if !exp.JStr? then Err("AttributeError: object has no attribute 'strip'")
      else if ctx in done then Ok(None)
      else if JoinFails(ctx) then Err("TypeError: sequence item: expected str instance")
      else Ok(Some(Score(ctx, NormalizeCmd(exp.s), reply)))
  }

  /** The outcome of every item, in order. */
  function Steps(items: seq<Json>, replies: seq<Reply>, done: set<Json>): (rs: seq<Result<Option<Rec>>>)
    requires |replies| == |items|
    ensures |rs| == |items|
    ensures forall k :: 0 <= k < |items| ==> rs[k] == StepOf(items[k], replies[k], done)
  {
    seq(|items|, k requires 0 <= k < |items| => StepOf(items[k], replies[k], done))
  }

  /** The records of the scored items, in order. */
  function Somes<T>(xs: seq<Option<T>>): (r: seq<T>)
    ensures |r| <= |xs|
  {
    if xs == [] then []
    else Somes(xs[..|xs| - 1]) + (if xs[|xs| - 1].Some? then [xs[|xs| - 1].value] else [])
  }

  lemma SomesSnoc<T>(xs: seq<Option<T>>, x: Option<T>)
    ensures Somes(xs + [x]) == Somes(xs) + (if x.Some? then [x.value] else [])
  {
    assert (xs + [x])[..|xs|] == xs;
  }

  /** Every present value is kept, and nothing else is. */
  lemma {:induction false} SomesElems<T>(xs: seq<Option<T>>)
    ensures forall v :: v in Somes(xs) <==> Some(v) in xs
  {
    if xs != [] {
      var init := xs[..|xs| - 1];
      SomesElems(init);
      assert xs == init + [xs[|xs| - 1]];
    }
  }

  /** The records a run writes, or the exception that stops it. */
  function Records(items: seq<Json>, replies: seq<Reply>, done: set<Json>): (r: Result<seq<Rec>>)
    requires |replies| == |items|
  {
    match Collect(Steps(items, replies, done))
    case Ok(outs) => Ok(Somes(outs))
    case Err(e) => Err(e)
  }

  predicate IsExact(rec: Rec) { rec.exact }

  predicate HasError(rec: Rec) { rec.error.Some? }

  /** A near match: not exact, and a score at least the threshold. */
  function NearTo(threshold: real): Rec -> bool {
    (rec: Rec) => !rec.exact && rec.jaccard >= threshold
  }

  // ---------------------------------------------------------------------
  // The loop of main
  // ---------------------------------------------------------------------

  /** The counters of `main` for the records written so far. */
  predicate Tallied(recs: seq<Rec>, threshold: real, n: nat, ok: nat, near: nat, errors: nat) {
    n == |recs| && ok == Count(recs, IsExact) && near == Count(recs, NearTo(threshold))
    && errors == Count(recs, HasError)
  }

  /** Writing one more record moves each counter by what the record adds. */
  lemma TalliedSnoc(recs: seq<Rec>, rec: Rec, threshold: real, n: nat, ok: nat, near: nat, errors: nat)
    requires Tallied(recs, threshold, n, ok, near, errors)
    ensures Tallied(recs + [rec], threshold, n + 1, ok + (if rec.exact then 1 else 0),
                    near + (if !rec.exact && rec.jaccard >= threshold then 1 else 0),
                    errors + (if rec.error.Some? then 1 else 0))
  {
    CountAppend(recs, [rec], IsExact);
    CountAppend(recs, [rec], NearTo(threshold));
    CountAppend(recs, [rec], HasError);
  }

  /** The records so far are those of the outcomes so far. */
  predicate Stepped(rs: seq<Result<Option<Rec>>>, i: nat, outs: seq<Option<Rec>>, recs: seq<Rec>) {
    i <= |rs| && Collect(rs[..i]) == Ok(outs) && recs == Somes(outs)
  }

  /** One pass of the loop: the item is skipped, scored, or raises. */
  lemma SteppedNext(rs: seq<Result<Option<Rec>>>, i: nat, outs: seq<Option<Rec>>, recs: seq<Rec>)
    requires Stepped(rs, i, outs, recs) && i < |rs|
    ensures rs[i].Err? ==> Collect(rs) == Err(rs[i].error)
    ensures rs[i].Ok? ==> Stepped(rs, i + 1, outs + [rs[i].value],
                                  recs + (if rs[i].value.Some? then [rs[i].value.value] else []))
  {
    CollectStep(rs, i, outs);
    if rs[i].Ok? {
      SomesSnoc(outs, rs[i].value);
    }
  }

  /** The loop of `main`: every item is skipped or scored, and `n`, `ok`,
      `near` and `errors` count the scored records, the exact ones, the near
      ones and those whose call failed; or the exception an item raises. */
  method Evaluate(items: seq<Json>, replies: seq<Reply>, done: set<Json>, threshold: real)
    returns (r: Result<seq<Rec>>, n: nat, ok: nat, near: nat, errors: nat)
    requires |replies| == |items|
    ensures r == Records(items, replies, done)
    ensures r.Ok? ==> Tallied(r.value, threshold, n, ok, near, errors)
  {
    ghost var rs := Steps(items, replies, done);
    ghost var outs: seq<Option<Rec>> := [];
    var recs: seq<Rec> := [];
    n, ok, near, errors := 0, 0, 0, 0;
    for i := 0 to |items|
      invariant Stepped(rs, i, outs, recs)
      invariant Tallied(recs, threshold, n, ok, near, errors)
    {
      var step := StepOf(items[i], replies[i], done);
      assert rs[i] == step;
      SteppedNext(rs, i, outs, recs);
      if step.Err? {
        return Err(step.error), n, ok, near, errors;
      }
      outs := outs + [step.value];
      if step.value.Some? {
        var rec := step.value.value;
        TalliedSnoc(recs, rec, threshold, n, ok, near, errors);
        recs := recs + [rec];
        n := n + 1;
        if rec.exact { ok := ok + 1; }
        if !rec.exact && rec.jaccard >= threshold { near := near + 1; }
        if rec.error.Some? { errors := errors + 1; }
      }
    }
    assert rs[..|items|] == rs;
    r := Ok(recs);
  }

  // ---------------------------------------------------------------------
  // The summary
  // ---------------------------------------------------------------------

  /** `k / n if n else 0.0`. */
  function Rate(k: nat, n: nat): (q: real)
    requires k <= n
    ensures 0.0 <= q <= 1.0
    ensures n == 0 ==> q == 0.0
  {
    if n == 0 then 0.0 else k as real / n as real
  }

  datatype Summary = Summary(total: nat, exactAcc: real, nearRate: real, errorRate: real)

  /** Two properties no item has at once count at most the items. */
  lemma {:induction false} CountDisjoint<T>(s: seq<T>, p: T -> bool, q: T -> bool)
    requires forall k :: 0 <= k < |s| ==> !(p(s[k]) && q(s[k]))
    ensures Count(s, p) + Count(s, q) <= |s|
  {
    if s != [] {
      CountDisjoint(s[1..], p, q);
      assert forall k :: 0 <= k < |s| - 1 ==> s[1..][k] == s[k + 1];
    }
  }

  /** Rates of two disjoint counts add up to at most 1. */
  lemma RatesAddUp(a: nat, b: nat, n: nat)
    requires a + b <= n
    ensures Rate(a, n) + Rate(b, n) <= 1.0
  {
    if n > 0 {
      var q := (a + b) as real / n as real;
      assert Rate(a, n) + Rate(b, n) == q;
      assert q * n as real == (a + b) as real <= n as real;
    }
  }

  /** The summary of the run: every rate between 0 and 1, all of them 0
      when nothing was scored (there is no division by zero), and the exact
      and near rates adding up to at most 1, since no record is both. */
  function Summarize(recs: seq<Rec>, threshold: real): (s: Summary)
    ensures s.total == |recs|
    ensures 0.0 <= s.exactAcc <= 1.0 && 0.0 <= s.nearRate <= 1.0 && 0.0 <= s.errorRate <= 1.0
    ensures recs == [] ==> s.exactAcc == 0.0 && s.nearRate == 0.0 && s.errorRate == 0.0
    ensures s.exactAcc + s.nearRate <= 1.0
  {
    var n := |recs|;
    var ok, near := Count(recs, IsExact), Count(recs, NearTo(threshold));
    CountDisjoint(recs, IsExact, NearTo(threshold));
    RatesAddUp(ok, near, n);
    Summary(n, Rate(ok, n), Rate(near, n), Rate(Count(recs, HasError), n))
  }

  // ---------------------------------------------------------------------
  // Resuming from an earlier results file
  // ---------------------------------------------------------------------

  /** `obj.get("_key", obj.get("context"))` for one decoded line; `None` when
      the line is not valid JSON or not an object (the bare `except`). */
  function KeyOf(line: Option<Json>): (k: Option<Json>)
    ensures k.Some? <==> line.Some? && line.value.JObj?
  {
    match line
    case Some(JObj(f)) => Some(if "_key" in f then f["_key"] else Get(f, "context"))
    case _ => None
  }

  /** The `done` keys read from the decoded lines of an earlier results file
      (keys are compared as JSON values, as `json.dumps(..., sort_keys=True)`
      compares them). */
  function ResumeKeys(lines: seq<Option<Json>>): (keys: set<Json>)
    ensures forall k :: 0 <= k < |lines| && KeyOf(lines[k]).Some? ==> KeyOf(lines[k]).value in keys
  {
    set k | 0 <= k < |lines| && KeyOf(lines[k]).Some? :: KeyOf(lines[k]).value
  }

  /** The object written for a record, as it decodes again. */
  function RecordJson(rec: Rec): (j: Json)
    ensures KeyOf(Some(j)) == Some(rec.context)
  {
    JObj(map["_key" := rec.context, "context" := rec.context, "expected" := JStr(rec.expected),
             "predicted_raw" := JStr(rec.predictedRaw), "predicted" := JStr(rec.predicted),
             "exact" := JBool(rec.exact),
             "error" := (if rec.error.Some? then JStr(rec.error.value) else JNull)])
  }

  /** The lines a run appends to the results file. */
  function Written(recs: seq<Rec>): (lines: seq<Option<Json>>)
    ensures |lines| == |recs|
    ensures forall k :: 0 <= k < |recs| ==> lines[k] == Some(RecordJson(recs[k]))
  {
    seq(|recs|, k requires 0 <= k < |recs| => Some(RecordJson(recs[k])))
  }

  /** Every item of a run that finished is skipped by a second run over the
      same items that reads back the results file the first run appended
      to: the second run calls the model for nothing and writes nothing. */
  lemma RerunSkipsEverything(items: seq<Json>, replies: seq<Reply>, replies2: seq<Reply>,
                             previous: seq<Option<Json>>)
    requires |replies| == |items| && |replies2| == |items|
    requires Records(items, replies, ResumeKeys(previous)).Ok?
    ensures Records(items, replies2, ResumeKeys(previous + Written(Records(items, replies, ResumeKeys(previous)).value))) == Ok([])
  {
    var done := ResumeKeys(previous);
    var recs := Records(items, replies, done).value;
    var done2 := ResumeKeys(previous + Written(recs));
    ResumeKeysGrow(previous, Written(recs));
    WrittenKeys(previous, recs);
    var outs := Collect(Steps(items, replies, done)).value;
    SomesElems(outs);
    var rs2 := Steps(items, replies2, done2);
    forall k | 0 <= k < |items| ensures rs2[k] == Ok(None) {
      SkippedOnRerun(items[k], replies[k], replies2[k], done, done2, outs[k]);
    }
    SomesNone(Collect(rs2).value);
  }

  /** Reading more lines keeps every key already read. */
  lemma ResumeKeysGrow(previous: seq<Option<Json>>, more: seq<Option<Json>>)
    ensures ResumeKeys(previous) <= ResumeKeys(previous + more)
  {
    var lines := previous + more;
    forall j | j in ResumeKeys(previous) ensures j in ResumeKeys(lines) {
      var k :| 0 <= k < |previous| && KeyOf(previous[k]).Some? && KeyOf(previous[k]).value == j;
      assert lines[k] == previous[k];
    }
  }

  /** The key of every record a run appends is read back. */
  lemma WrittenKeys(previous: seq<Option<Json>>, recs: seq<Rec>)
    ensures forall rec :: rec in recs ==> rec.context in ResumeKeys(previous + Written(recs))
  {
    var lines := previous + Written(recs);
    forall rec | rec in recs ensures rec.context in ResumeKeys(lines) {
      var m :| 0 <= m < |recs| && recs[m] == rec;
      assert lines[|previous| + m] == Some(RecordJson(rec));
    }
  }

  /** An item that the first run skipped or scored is skipped by a run that
      knows every key the first one knew and the key of what it scored. */
  lemma SkippedOnRerun(item: Json, reply: Reply, reply2: Reply, done: set<Json>, done2: set<Json>, out: Option<Rec>)
    requires StepOf(item, reply, done) == Ok(out) && done <= done2
    requires out.Some? ==> out.value.context in done2
    ensures StepOf(item, reply2, done2) == Ok(None)
  {
  }

  lemma {:induction false} SomesNone<T>(xs: seq<Option<T>>)
    requires forall k :: 0 <= k < |xs| ==> xs[k].None?
    ensures Somes(xs) == []
  {
    if xs != [] {
      SomesNone(xs[..|xs| - 1]);
    }
  }

  // ---------------------------------------------------------------------
  // Start-up
  // ---------------------------------------------------------------------

  /** `[json.loads(line) for line in fin if line.strip()]`: blank lines are
      dropped and a line that does not decode stops the script. */
  function LoadItems(lines: seq<string>, decode: string -> Option<Json>): (r: Result<seq<Json>>)
    ensures r.Ok? ==> |r.value| <= |lines|
    ensures r.Ok? ==> forall k :: 0 <= k < |lines| && Strip(lines[k]) != "" ==> decode(lines[k]).Some?
  {
    if lines == [] then Ok([])
    else if Strip(lines[0]) == "" then LoadItems(lines[1..], decode)
    else match (decode(lines[0]), LoadItems(lines[1..], decode))
      case (None, _) => Err("JSONDecodeError")
      case (_, Err(e)) => Err(e)
      case (Some(j), Ok(rest)) => Ok([j] + rest)
  }

  /** What `main` does before its loop: the key check, the resume keys of
      the results file when it exists, and the items of the input file,
      whose absence makes `open` raise. */
  function Prepare(apiKey: Option<string>, previous: Option<seq<Option<Json>>>, input: Option<seq<string>>,
                   decode: string -> Option<Json>): (r: Result<(set<Json>, seq<Json>)>)
    ensures apiKey.None? || apiKey == Some("") ==> r.Err?
    ensures apiKey.Some? && apiKey != Some("") && input.None? ==> r.Err?
    ensures r.Ok? ==> r.value.0 == (if previous.Some? then ResumeKeys(previous.value) else {})
    ensures r.Ok? ==> input.Some? && LoadItems(input.value, decode) == Ok(r.value.1)
  {
    if apiKey.None? || apiKey.value == "" then Err("Missing --api_key or OPENROUTER_API_KEY")
    else
      var done := if previous.Some? then ResumeKeys(previous.value) else {};
      if input.None? then Err("FileNotFoundError: No such file or directory")
      else match LoadItems(input.value, decode)
        case Err(e) => Err(e)
        case Ok(items) => Ok((done, items))
  }
}
