/** The retrieval-augmented evaluation of prompting/core_rag.py: the store is
    filled 4000 documents at a time and an unreadable line stops the
    indexing; each task expects one command drawn from a session, the
    retrieved examples are checked for that command (`hit_db`), and the
    evaluation exits at an expected command that normalises to nothing. */
module RagDbHit {
  import opened Outcomes
  import opened PyText
  import opened Seqs
  import opened JsonValue
  import opened Windows
  import opened PromptUtils
  import opened RagIndex
  import opened RagScoring

  /** Documents are handed to the store 4000 at a time. */
  const BATCH: nat := 4000

  /** Indexing before the evaluation: the index file when one is named,
      else the sessions file, with an unreadable line ending the run. */
  method IndexForEvaluation(rag: Retriever, indexFile: string, sessions: string,
                            files: map<string, seq<string>>, decode: string -> Option<Json>, L: int)
    returns (crashed: bool)
    modifies rag
    ensures var path := if indexFile != "" then indexFile else sessions;
      (path !in files || old(rag.collection) != [] ==>
         !crashed && rag.collection == old(rag.collection) && rag.adds == old(rag.adds))
      && (path in files && old(rag.collection) == [] ==>
         Indexed(files[path], decode, L, BATCH, false, crashed, rag.collection)
         && rag.adds == old(rag.adds) + Chunks(rag.collection, BATCH))
  {
    var path := if indexFile != "" then indexFile else sessions;
    crashed := rag.IndexFile(path, files, decode, L, BATCH, false);
  }

  // ---------------------------------------------------------------------
  // hit_db
  // ---------------------------------------------------------------------

  const NEXT_MOVE: string := "Attacker Next Move:"

  /** Line `i` opens a next-move entry and the line after it, stripped, is
      `target`. */
  predicate NextMoveAt(lines: seq<string>, i: int, target: string) {
    0 <= i && i + 1 < |lines| && NEXT_MOVE <= lines[i] && Strip(lines[i + 1]) == target
  }

  /** Some line of `lines` opens a next-move entry for `target`. */
  predicate MoveIn(lines: seq<string>, target: string) {
    lines != [] && (NextMoveAt(lines, 0, target) || MoveIn(lines[1..], target))
  }

  /** `MoveIn` holds exactly when some line opens an entry for the target. */
  lemma {:induction false} MoveInIff(lines: seq<string>, target: string)
    ensures MoveIn(lines, target) <==> exists i :: NextMoveAt(lines, i, target)
  {
    if lines != [] {
      MoveInIff(lines[1..], target);
      if MoveIn(lines[1..], target) {
        var i :| NextMoveAt(lines[1..], i, target);
        assert lines[1..][i] == lines[i + 1] && lines[1..][i + 1] == lines[i + 2];
        assert NextMoveAt(lines, i + 1, target);
      }
      if i :| NextMoveAt(lines, i, target) && i > 0 {
        assert lines[1..][i - 1] == lines[i] && lines[1..][i] == lines[i + 1];
        assert NextMoveAt(lines[1..], i - 1, target);
      }
    }
  }

  /** The retrieved text names the stripped target as a next move. */
  predicate DbHit(target: string, text: string) {
    MoveIn(SplitLines(text), Strip(target))
  }

  /** `hit_db(target_cmd, retrieved_examples_text)`, with its early return. */
  method HitDb(targetCmd: string, text: string) returns (hit: bool)
    ensures hit == DbHit(targetCmd, text)
  {
    var target := Strip(targetCmd);
    var lines := SplitLines(text);
    var i := 0;
    while i < |lines|
      invariant 0 <= i <= |lines|
      invariant MoveIn(lines, target) == MoveIn(lines[i..], target)
    {
      assert lines[i..][1..] == lines[i + 1..];
      if NEXT_MOVE <= lines[i] && i + 1 < |lines| {
        var nextMove := Strip(lines[i + 1]);
        if target == nextMove {
          assert NextMoveAt(lines[i..], 0, target);
          return true;
        }
      }
      i := i + 1;
    }
    return false;
  }

  /** A command written on one line. */
  predicate SingleLine(s: string) {
    forall i :: 0 <= i < |s| ==> !IsLineBreak(s[i])
  }

  /** The next-move header is one line. */
  lemma NextMoveSingleLine()
    ensures SingleLine(NEXT_MOVE)
  {
    forall i | 0 <= i < |NEXT_MOVE| ensures !IsLineBreak(NEXT_MOVE[i]) {
      assert ' ' <= NEXT_MOVE[i] <= 'z';
    }
  }

  /** The block of a document ends with
      `Attacker Next Move:`, the document's next command and an empty line. */
  lemma ExampleLines(n: nat, d: Doc) returns (q: nat)
    requires SingleLine(d.next)
    ensures var lines := SplitLines(Example(n, d));
      q + 1 < |lines| && lines[q] == NEXT_MOVE && lines[q + 1] == d.next
  {
    var head := "--- SIMILAR PAST ATTACK (Example " + NatToString(n) + ") ---\n"
      + "Context:\n" + Replace(d.text, " || ", "\n") + "\n";
    var move := NEXT_MOVE + "\n";
    var tail := (d.next + "\n") + "\n";
    assert Example(n, d) == head + (move + tail);
    SplitLinesAppend(head, move + tail);
    SplitLinesAppend(move, tail);
    NextMoveSingleLine();
    SplitLinesOne(NEXT_MOVE);
    SplitLinesAppend(d.next + "\n", "\n");
    SplitLinesOne(d.next);
    q := |SplitLines(head)|;
  }

  /** The retrieved text is empty or ends with a line feed. */
  lemma RetrieveEnds(context: seq<string>, found: seq<Doc>)
    ensures var r := Retrieve(context, found); r == [] || r[|r| - 1] == '\n'
  {
    if context != [] && found != [] {
      var m := |found|;
      var e := Example(m, found[m - 1]);
      assert e[|e| - 1] == '\n';
    }
  }

  /** An entry found in some lines is still found with more lines after them. */
  lemma {:induction false} MoveInExtend(pre: seq<string>, post: seq<string>, target: string)
    requires MoveIn(pre, target)
    ensures MoveIn(pre + post, target)
  {
    var all := pre + post;
    assert all[0] == pre[0];
    if NextMoveAt(pre, 0, target) {
      assert all[1] == pre[1];
      assert NextMoveAt(all, 0, target);
    } else {
      MoveInExtend(pre[1..], post, target);
      assert all[1..] == pre[1..] + post;
    }
  }

  /** An entry found in some lines is still found with more lines before them. */
  lemma {:induction false} MoveInShift(pre: seq<string>, post: seq<string>, target: string)
    requires MoveIn(post, target)
    ensures MoveIn(pre + post, target)
  {
    if pre == [] {
      assert pre + post == post;
    } else {
      MoveInShift(pre[1..], post, target);
      assert (pre + post)[1..] == pre[1..] + post;
    }
  }

  /** When the query returns a document whose next command is the expected
      one, `hit_db` reports a hit. */
  lemma {:induction false} RetrievedNextMoveHits(context: seq<string>, found: seq<Doc>, j: nat, target: string)
    requires context != [] && j < |found|
    requires SingleLine(found[j].next) && Strip(found[j].next) == Strip(target)
    ensures DbHit(target, Retrieve(context, found))
  {
    var m := |found|;
    var init := found[..m - 1];
    var before := Retrieve(context, init);
    var e := Example(m, found[m - 1]);
    assert Retrieve(context, found) == before + e;
    RetrieveEnds(context, init);
    SplitLinesAppend(before, e);
    var pre := SplitLines(before);
    var block := SplitLines(e);
    if j == m - 1 {
      var q := ExampleLines(m, found[m - 1]);
      assert NextMoveAt(block, q, Strip(target));
      MoveInIff(block, Strip(target));
      MoveInShift(pre, block, Strip(target));
    } else {
      assert init[j] == found[j];
      RetrievedNextMoveHits(context, init, j, target);
      MoveInExtend(pre, block, Strip(target));
    }
  }

  // ---------------------------------------------------------------------
  // The tasks
  // ---------------------------------------------------------------------

  /** The prediction task one line gives, `drawn` standing for `random.randint`
      reduced to the commands' range: none for a blank line or where the
      `try` block raises (the line does not decode or is not an object, its
      commands have no `len`, are an empty list or string with nothing to
      draw, are a dictionary, whose integer index is not a key, or are a
      list holding a non-string). A string is read as its characters. */
  function TaskOfLine(line: string, decode: string -> Option<Json>, drawn: nat, L: int): (r: Option<EvalTask>)
  {
    var raw := RawSession(line, decode, JStr("unk"));
    if AllSpace(line) || (raw.Some? && raw.value.1.JObj?) then None
    else match ReadSession(line, decode, JStr("unk"))
      case None => None
      case Some(session) =>
        var cmds := session.1;
        if cmds == [] then None
        else
          var j := drawn % |cmds|;
          Some(EvalTask(session.0, Before(cmds, j, L), cmds[j]))
  }

  /** The prediction task of a line is a run of consecutive commands of its session:
      at most `L` commands and then the expected one, starting at the first
      command when fewer than `L` precede it. */
  lemma TaskOfLineShape(line: string, decode: string -> Option<Json>, drawn: nat, L: int) returns (start: nat)
    requires L >= 0 && TaskOfLine(line, decode, drawn, L).Some?
    ensures var t := TaskOfLine(line, decode, drawn, L).value;
      var cmds := ReadSession(line, decode, JStr("unk")).value.1;
      start + |t.context| < |cmds| && cmds[start..start + |t.context| + 1] == t.context + [t.expected]
      && |t.context| <= L && (|t.context| < L ==> start == 0)
  {
    TaskOfReadLine(line, decode, drawn, L);
    var cmds := ReadSession(line, decode, JStr("unk")).value.1;
    var j := drawn % |cmds|;
    BeforeShape(cmds, j, L);
    start := BeforeRun(cmds, j, L);
  }

  /** A line with a task was read, and has a command to draw. */
  lemma TaskOfReadLine(line: string, decode: string -> Option<Json>, drawn: nat, L: int)
    requires TaskOfLine(line, decode, drawn, L).Some?
    ensures ReadSession(line, decode, JStr("unk")).Some?
    ensures var session := ReadSession(line, decode, JStr("unk")).value;
      var cmds := session.1;
      cmds != [] && TaskOfLine(line, decode, drawn, L).value == EvalTask(session.0, Before(cmds, drawn % |cmds|, L), cmds[drawn % |cmds|])
  {
  }

  /** The tasks of the selected lines, in their order; `draw(j)` is the draw
      made for line `j`. */
  function LineTasks(lines: seq<string>, decode: string -> Option<Json>, draw: nat -> nat, L: int): (r: seq<EvalTask>)
    ensures |r| <= |lines|
  {
    if lines == [] then []
    else
      var n := |lines| - 1;
      LineTasks(lines[..n], decode, draw, L)
      + match TaskOfLine(lines[n], decode, draw(n), L) case None => [] case Some(t) => [t]
  }

  /** Every task comes from a selected line. */
  lemma {:induction false} LineTaskSource(lines: seq<string>, decode: string -> Option<Json>, draw: nat -> nat, L: int,
                                          t: EvalTask) returns (j: nat)
    requires t in LineTasks(lines, decode, draw, L)
    ensures j < |lines| && TaskOfLine(lines[j], decode, draw(j), L) == Some(t)
  {
    var n := |lines| - 1;
    var init := lines[..n];
    var last := TaskOfLine(lines[n], decode, draw(n), L);
    var tail := match last case None => [] case Some(u) => [u];
    assert LineTasks(lines, decode, draw, L) == LineTasks(init, decode, draw, L) + tail;
    if t in LineTasks(init, decode, draw, L) {
      j := LineTaskSource(init, decode, draw, L, t);
      assert init[j] == lines[j];
    } else {
      assert t in tail;
      j := n;
    }
  }

  /** Every selected line that gives a task contributes it. */
  lemma {:induction false} LineTaskKept(lines: seq<string>, decode: string -> Option<Json>, draw: nat -> nat, L: int,
                                        j: nat)
    requires j < |lines| && TaskOfLine(lines[j], decode, draw(j), L).Some?
    ensures TaskOfLine(lines[j], decode, draw(j), L).value in LineTasks(lines, decode, draw, L)
  {
    var n := |lines| - 1;
    var init := lines[..n];
    var last := TaskOfLine(lines[n], decode, draw(n), L);
    var tail := match last case None => [] case Some(u) => [u];
    var before := LineTasks(init, decode, draw, L);
    assert LineTasks(lines, decode, draw, L) == before + tail;
    if j < n {
      assert init[j] == lines[j];
      LineTaskKept(init, decode, draw, L, j);
      assert TaskOfLine(lines[j], decode, draw(j), L).value in before;
    } else {
      assert tail == [last.value];
    }
  }

  /** The prediction task list of the evaluation, or the exit that ends it: a missing
      sessions file, or no line giving a task. The lines are the non-blank
      lines of the file, sampled as intended when `n > 0`. */
  function BuildTasks(sessions: string, files: map<string, seq<string>>, n: int, sample: seq<string>,
                      draw: nat -> nat, decode: string -> Option<Json>, L: int): (r: Result<seq<EvalTask>>)
    requires sessions in files ==> IsSample(sample, Filter(files[sessions], NonBlank), n)
    ensures sessions !in files ==> r == Err("Errore: Il file " + sessions + " non esiste.")
    ensures sessions in files ==> r.Ok? || r == Err(NO_TASKS)
    ensures r.Ok? ==> r.value != []
  {
    if sessions !in files then Err("Errore: Il file " + sessions + " non esiste.")
    else
      var lines := Filter(files[sessions], NonBlank);
      var tasks := LineTasks(TaskLines(lines, sample, n), decode, draw, L);
      if tasks == [] then Err(NO_TASKS) else Ok(tasks)
  }

  /** With `n <= 0` every non-blank line of the file is a candidate line. */
  lemma AllLinesTasks(sessions: string, files: map<string, seq<string>>, n: int, sample: seq<string>,
                      draw: nat -> nat, decode: string -> Option<Json>, L: int)
    requires sessions in files && n <= 0
    requires BuildTasks(sessions, files, n, sample, draw, decode, L).Ok?
    ensures var lines := Filter(files[sessions], NonBlank);
      BuildTasks(sessions, files, n, sample, draw, decode, L).value == LineTasks(lines, decode, draw, L)
  {
  }

  // ---------------------------------------------------------------------
  // Scoring
  // ---------------------------------------------------------------------

  /** The comparison this script makes: as many pipeline segments as the
      expected command, and the first segment with the same name and
      agreeing paths. */
  predicate Agrees(nc: seq<(string, string)>, ne: seq<(string, string)>) {
    |nc| == |ne| && ne != [] && nc[0].0 == ne[0].0 && PathsAgree(ne[0].1, nc[0].1)
  }

  /** The inner `while` loop. Its index never reaches the comparison, which
      looks at the first segments only, so it decides on the first pass. */
  method CompareSegments(nc: seq<(string, string)>, ne: seq<(string, string)>) returns (hit: bool)
    ensures hit == Agrees(nc, ne)
  {
    hit := false;
    if |nc| != |ne| {
      return;
    }
    var i := 0;
    while i < |ne|
      invariant 0 <= i <= |ne| && !hit
      invariant i > 0 ==> nc[0].0 == ne[0].0 && !PathsAgree(ne[0].1, nc[0].1)
    {
      var (expName, expPath) := ne[0];
      var (candName, candPath) := nc[0];
      if expName == candName {
        if expPath == "" || candPath == "" || Contains(candPath, expPath) || Contains(expPath, candPath) {
          hit := true;
          break;
        }
      } else {
        break;
      }
      i := i + 1;
    }
  }

  /** The 1-based rank of the first candidate that agrees, 0 when none does;
      `keys[j]` is the normalised form of candidate `j`. */
  function MatchRank(keys: seq<seq<(string, string)>>, ne: seq<(string, string)>): (r: nat)
    ensures r <= |keys|
    ensures r > 0 ==> Agrees(keys[r - 1], ne)
    ensures forall j :: 0 <= j < (if r == 0 then |keys| else r - 1) ==> !Agrees(keys[j], ne)
  {
    if keys == [] then 0
    else if Agrees(keys[0], ne) then 1
    else
      var r := MatchRank(keys[1..], ne);
      if r == 0 then 0 else r + 1
  }

  /** `MatchRank` is the only rank whose candidate agrees and whose earlier
      candidates all disagree. */
  lemma MatchRankIsFirst(keys: seq<seq<(string, string)>>, ne: seq<(string, string)>, rank: nat)
    requires rank <= |keys|
    requires rank > 0 ==> Agrees(keys[rank - 1], ne)
    requires forall j :: 0 <= j < (if rank == 0 then |keys| else rank - 1) ==> !Agrees(keys[j], ne)
    ensures rank == MatchRank(keys, ne)
  {
  }

  /** The loop over the ranked candidates, with its early exit; `keys[j]`
      is `normalize_for_compare` of candidate `j`. */
  method RankCandidates(keys: seq<seq<(string, string)>>, ne: seq<(string, string)>) returns (rank: nat)
    ensures rank == MatchRank(keys, ne)
  {
    rank := 0;
    var i := 0;
    while i < |keys|
      invariant 0 <= i <= |keys|
      invariant forall j :: 0 <= j < i ==> !Agrees(keys[j], ne)
    {
      var hit := CompareSegments(keys[i], ne);
      if hit {
        rank := i + 1;
        break;
      }
      i := i + 1;
    }
    MatchRankIsFirst(keys, ne, rank);
  }

  /** The record of a task, given the documents the query returned and the
      model's answer (`""` when there is none). */
  function OutcomeOf(t: EvalTask, found: seq<Doc>, raw: string, k: int): Outcome {
    var cands := Candidates(raw, k);
    var rank := MatchRank(CandidateKeys(cands), NormalizeForCompare(t.expected));
    Outcome(t, cands, rank, DbHit(t.expected, Retrieve(t.context, found)))
  }

  /** A task's record: its candidates are the parsed answer and its rank
      is at most their number. */
  lemma OutcomeRanked(t: EvalTask, found: seq<Doc>, raw: string, k: int)
    ensures var o := OutcomeOf(t, found, raw, k);
      Ranked(o) && o.task == t && o.candidates == Candidates(raw, k)
  {
  }

  /** A hit is the first candidate that agrees with the expected command,
      and the flag is the DB-hit test on what was retrieved. */
  lemma OutcomeRank(t: EvalTask, found: seq<Doc>, raw: string, k: int)
    ensures var o := OutcomeOf(t, found, raw, k);
      var keys, ne := CandidateKeys(Candidates(raw, k)), NormalizeForCompare(t.expected);
      && (o.rank > 0 ==> Agrees(keys[o.rank - 1], ne))
      && (forall i :: 0 <= i < (if o.rank == 0 then |keys| else o.rank - 1) ==> !Agrees(keys[i], ne))
      && o.flagged == DbHit(t.expected, Retrieve(t.context, found))
  {
  }

  /** The records of the first `n` tasks, one per task. */
  function Records(tasks: seq<EvalTask>, found: seq<seq<Doc>>, replies: seq<string>, k: int, n: nat): (r: seq<Outcome>)
    requires n <= |tasks| && |found| == |tasks| && |replies| == |tasks|
  {
    Scored(OutcomeOf, tasks, found, replies, k, n)
  }

  /** None of the first `n` tasks expects a command that normalises to nothing. */
  predicate Expectable(tasks: seq<EvalTask>, n: nat)
    requires n <= |tasks|
  {
    n == 0 || (Expectable(tasks, n - 1) && NormalizeForCompare(tasks[n - 1].expected) != [])
  }

  lemma ExpectableStep(tasks: seq<EvalTask>, i: nat)
    requires i < |tasks| && Expectable(tasks, i) && NormalizeForCompare(tasks[i].expected) != []
    ensures Expectable(tasks, i + 1)
  {
  }

  /** Scoring one task: `None` stands for the exit at an expected command
      that normalises to nothing. */
  method ScoreTask(t: EvalTask, found: seq<Doc>, raw: string, k: int) returns (o: Option<Outcome>)
    ensures o.None? <==> NormalizeForCompare(t.expected) == []
    ensures o.Some? ==> o.value == OutcomeOf(t, found, raw, k)
  {
    var retrieved := Retrieve(t.context, found);
    var dbHit := HitDb(t.expected, retrieved);
    var cands := Candidates(raw, k);
    var ne := NormalizeForCompare(t.expected);
    if ne == [] {
      return None;
    }
    var rank := RankCandidates(CandidateKeys(cands), ne);
    o := Some(Outcome(t, cands, rank, dbHit));
  }

  const NO_EXPECTED: string := "Errore: Comando expected non trovato"

  /** The evaluation loop, given for each task the documents the query
      returned and the model's answer. It stops (`sys.exit`) at the first
      task whose expected command normalises to nothing; the records already
      written stay in the output file. */
  method Evaluate(tasks: seq<EvalTask>, found: seq<seq<Doc>>, replies: seq<string>, k: int)
    returns (outs: seq<Outcome>, topk: nat, top1: nat, empty: nat, stopped: bool)
    requires |found| == |tasks| && |replies| == |tasks|
    ensures |outs| <= |tasks| && outs == Records(tasks, found, replies, k, |outs|)
    ensures Expectable(tasks, |outs|)
    ensures stopped <==> |outs| < |tasks|
    ensures stopped ==> NormalizeForCompare(tasks[|outs|].expected) == []
    ensures topk == Count(outs, Hit) && top1 == Count(outs, Top1) && empty == Count(outs, Empty)
  {
    outs, topk, top1, empty, stopped := [], 0, 0, 0, false;
    var i := 0;
    while i < |tasks|
      invariant 0 <= i <= |tasks| && |outs| == i
      invariant outs == Records(tasks, found, replies, k, i) && Expectable(tasks, i)
      invariant topk == Count(outs, Hit) && top1 == Count(outs, Top1) && empty == Count(outs, Empty)
    {
      var scored := ScoreTask(tasks[i], found[i], replies[i], k);
      if scored.None? {
        stopped := true;
        return;
      }
      var o := scored.value;
      ScoredStep(OutcomeOf, tasks, found, replies, k, i, outs, o);
      ExpectableStep(tasks, i);
      topk, top1, empty := CountOutcome(o, topk, top1, empty);
      outs := outs + [o];
      i := i + 1;
    }
  }

  /** A run that scores every task reaches the summary, whose rates are
      bounded: `top1 <= topk <= total - empty`, and whose hits with and
      without a DB hit add up to the top-k hits. */
  lemma CompletedRunSummary(tasks: seq<EvalTask>, found: seq<seq<Doc>>, replies: seq<string>, k: int)
    requires tasks != [] && |found| == |tasks| && |replies| == |tasks|
    ensures var s := Summarize(Records(tasks, found, replies, k, |tasks|));
      s.Ok? && s.value.total == |tasks| && s.value.top1 <= s.value.topk <= s.value.total - s.value.empty
      && s.value.flagged + s.value.clean == s.value.topk
  {
    var outs := Records(tasks, found, replies, k, |tasks|);
    forall j | 0 <= j < |outs| ensures Ranked(outs[j]) {
      ScoredAt(OutcomeOf, tasks, found, replies, k, |tasks|, j);
      OutcomeRanked(tasks[j], found[j], replies[j], k);
    }
  }
}
