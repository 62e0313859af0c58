/** The retrieval-augmented evaluation of prompting/core_RAG.py: the store is
    filled 5000 documents at a time and unreadable lines are skipped; every
    window of every selected session is a task, the retrieved examples are
    checked for the expected command (`check_contamination`), and a task
    whose expected command normalises to nothing is scored as a miss. */
module RagContamination {
  import opened Outcomes
  import opened PyText
  import opened Seqs
  import opened JsonValue
  import opened Windows
  import opened PromptUtils
  import opened RagIndex
  import opened RagScoring
  import RagDbHit

  /** Documents are handed to the store 5000 at a time. */
  const BATCH: nat := 5000

  /** Indexing before the evaluation: the index file when one is named,
      else the sessions file. Unreadable lines are skipped, so the run never
      stops early and the store ends up with every readable line's windows. */
  method IndexForEvaluation(rag: Retriever, indexFile: string, sessions: string,
                            files: map<string, seq<string>>, decode: string -> Option<Json>, L: int)
    modifies rag
    ensures var path := if indexFile != "" then indexFile else sessions;
      (path !in files || old(rag.collection) != [] ==>
         rag.collection == old(rag.collection) && rag.adds == old(rag.adds))
      && (path in files && old(rag.collection) == [] ==>
         rag.collection == FileDocs(files[path], decode, L)
         && rag.adds == old(rag.adds) + Chunks(rag.collection, BATCH))
  {
    var path := if indexFile != "" then indexFile else sessions;
    var crashed := rag.IndexFile(path, files, decode, L, BATCH, true);
  }

  // ---------------------------------------------------------------------
  // check_contamination
  // ---------------------------------------------------------------------

  /** `s.find(t)` finds an occurrence exactly when `t in s`. */
  lemma FindIffContains(s: string, t: string)
    ensures Find(s, t) >= 0 <==> Contains(s, t)
  {
    var r := Find(s, t);
    if r >= 0 {
      ContainsAt(s, t, r);
    }
  }

  /** `check_contamination(target_cmd, retrieved_examples_text)`: a stripped
      target shorter than four characters is never reported. */
  function CheckContamination(targetCmd: string, text: string): (r: bool)
    ensures |Strip(targetCmd)| < 4 ==> !r
  {
    var target := Strip(targetCmd);
    if |target| < 4 then false else Contains(text, target)
  }

  /** A longer target is reported exactly when `find` locates it in the
      retrieved text. */
  lemma ContaminationFound(targetCmd: string, text: string)
    ensures CheckContamination(targetCmd, text) <==> |Strip(targetCmd)| >= 4 && Find(text, Strip(targetCmd)) >= 0
  {
    FindIffContains(text, Strip(targetCmd));
  }

  /** What `hit_db` of prompting/core_rag.py reports on a target of at least
      four visible characters, this check reports too: the next-move line
      that names the target holds it. */
  lemma DbHitIsContamination(targetCmd: string, text: string)
    requires |Strip(targetCmd)| >= 4 && RagDbHit.DbHit(targetCmd, text)
    ensures CheckContamination(targetCmd, text)
  {
    var target := Strip(targetCmd);
    var lines := SplitLines(text);
    RagDbHit.MoveInIff(lines, target);
    var i :| RagDbHit.NextMoveAt(lines, i, target);
    StrippedLineIn(text, i + 1);
  }

  // ---------------------------------------------------------------------
  // The tasks
  // ---------------------------------------------------------------------

  /** The tasks of a session's first `n` windows: the window that ends at
      command `i`, and command `i + 1` as the expected one. */
  function WindowTasks(sid: Json, cmds: seq<string>, n: nat, L: int): (r: seq<EvalTask>)
    requires n == 0 || n < |cmds|
    ensures |r| == n
  {
    if n == 0 then [] else WindowTasks(sid, cmds, n - 1, L) + [EvalTask(sid, Window(cmds, n - 1, L), cmds[n])]
  }

  /** Task `i` of a session is its window `i` and the command after it. */
  lemma {:induction false} WindowTasksAt(sid: Json, cmds: seq<string>, n: nat, L: int, i: nat)
    requires (n == 0 || n < |cmds|) && i < n
    ensures WindowTasks(sid, cmds, n, L)[i] == EvalTask(sid, Window(cmds, i, L), cmds[i + 1])
  {
    if i < n - 1 {
      WindowTasksAt(sid, cmds, n - 1, L, i);
    }
  }

  /** The tasks of one line: none for a blank line or where the `try` block
      raises, else one per window of its session. */
  function TasksOfLine(line: string, decode: string -> Option<Json>, L: int): (r: seq<EvalTask>) {
    if AllSpace(line) then []
    else match ReadSession(line, decode, JStr("unk"))
      case None => []
      case Some((sid, cmds)) => WindowTasks(sid, cmds, WindowCount(cmds), L)
  }

  /** Task `t`, cut at window `i`, is a run of consecutive commands of
      `cmds` from `start`: a non-empty context of at most `L` commands (all
      `L` once enough precede it) and the command right after it. */
  ghost predicate WindowRunAt(cmds: seq<string>, start: nat, t: EvalTask, i: nat, L: int) {
    && start + |t.context| < |cmds| && cmds[start..start + |t.context| + 1] == t.context + [t.expected]
    && t.context != [] && |t.context| == (if i + 1 < L then i + 1 else L)
  }

  /** Window task `i` of a session is such a run. */
  lemma WindowTaskShape(sid: Json, cmds: seq<string>, L: int, i: nat) returns (start: nat)
    requires L >= 1 && i < WindowCount(cmds)
    ensures WindowRunAt(cmds, start, WindowTasks(sid, cmds, WindowCount(cmds), L)[i], i, L)
  {
    WindowTasksAt(sid, cmds, WindowCount(cmds), L, i);
    WindowShape(cmds, i, L);
    start := WindowRun(cmds, i, L);
  }

  /** Each task of a line is a window of its session, as above. */
  lemma TaskIsWindow(line: string, decode: string -> Option<Json>, L: int, i: nat) returns (start: nat)
    requires L >= 1 && i < |TasksOfLine(line, decode, L)|
    ensures WindowRunAt(ReadSession(line, decode, JStr("unk")).value.1, start, TasksOfLine(line, decode, L)[i], i, L)
  {
    LineTasks(line, decode, L);
    var read := ReadSession(line, decode, JStr("unk"));
    start := WindowTaskShape(read.value.0, read.value.1, L, i);
  }

  /** A line with tasks was read, and its tasks are its session's windows. */
  lemma LineTasks(line: string, decode: string -> Option<Json>, L: int)
    requires TasksOfLine(line, decode, L) != []
    ensures !AllSpace(line) && ReadSession(line, decode, JStr("unk")).Some?
    ensures var read := ReadSession(line, decode, JStr("unk")).value;
      TasksOfLine(line, decode, L) == WindowTasks(read.0, read.1, WindowCount(read.1), L)
  {
  }

  /** The session id a line is read with only names the session: a line
      gives tasks exactly when the indexer reads documents from it, and the
      commands are the same. */
  lemma ReadSessionAnyName(line: string, decode: string -> Option<Json>, u1: Json, u2: Json)
    ensures ReadSession(line, decode, u1).Some? <==> ReadSession(line, decode, u2).Some?
    ensures ReadSession(line, decode, u1).Some? ==>
      ReadSession(line, decode, u1).value.1 == ReadSession(line, decode, u2).value.1
  {
  }

  /** Indexing a line and cutting tasks from it see the same windows: task
      `i` of a line is document `i` of that line, its context joined by
      `" || "` and its expected command the document's next command. When
      the index is built from the sessions file itself, every expected
      command is in the store. */
  lemma TasksAreIndexedWindows(idx: nat, line: string, decode: string -> Option<Json>, L: int, i: nat)
    requires i < |TasksOfLine(line, decode, L)|
    ensures i < |LineDocs(idx, line, decode, L)|
    ensures LineDocs(idx, line, decode, L)[i].text == Join(TasksOfLine(line, decode, L)[i].context, " || ")
    ensures LineDocs(idx, line, decode, L)[i].next == TasksOfLine(line, decode, L)[i].expected
  {
    LineTasks(line, decode, L);
    ReadSessionAnyName(line, decode, JStr("unk"), JStr("unknown"));
    var session := ReadSession(line, decode, JStr("unk")).value;
    WindowTasksAt(session.0, session.1, WindowCount(session.1), L, i);
    LineDocsRead(idx, line, decode, L);
  }

  /** The documents of a readable line are its session's windows. */
  lemma LineDocsRead(idx: nat, line: string, decode: string -> Option<Json>, L: int)
    requires !AllSpace(line) && LineSession(line, decode).Some?
    ensures var read := LineSession(line, decode).value;
      LineDocs(idx, line, decode, L) == SessionDocs(idx, read.0, read.1, WindowCount(read.1), L)
  {
  }

  /** The tasks of the selected lines, in their order. */
  function FileTasks(lines: seq<string>, decode: string -> Option<Json>, L: int): (r: seq<EvalTask>) {
    if lines == [] then []
    else
      var n := |lines| - 1;
      FileTasks(lines[..n], decode, L) + TasksOfLine(lines[n], decode, L)
  }

  /** Every task comes from a window of a selected line. */
  lemma {:induction false} TaskSource(lines: seq<string>, decode: string -> Option<Json>, L: int, t: EvalTask)
    returns (j: nat, i: nat)
    requires t in FileTasks(lines, decode, L)
    ensures j < |lines| && i < |TasksOfLine(lines[j], decode, L)| && TasksOfLine(lines[j], decode, L)[i] == t
  {
    var n := |lines| - 1;
    var init := lines[..n];
    var last := TasksOfLine(lines[n], decode, L);
    assert FileTasks(lines, decode, L) == FileTasks(init, decode, L) + last;
    if t in FileTasks(init, decode, L) {
      j, i := TaskSource(init, decode, L, t);
      assert init[j] == lines[j];
    } else {
      j := n;
      i :| 0 <= i < |last| && last[i] == t;
    }
  }

  /** Every window of every selected line is a task. */
  lemma {:induction false} TaskKept(lines: seq<string>, decode: string -> Option<Json>, L: int, j: nat, i: nat)
    requires j < |lines| && i < |TasksOfLine(lines[j], decode, L)|
    ensures TasksOfLine(lines[j], decode, L)[i] in FileTasks(lines, decode, L)
  {
    var n := |lines| - 1;
    var init := lines[..n];
    var before := FileTasks(init, decode, L);
    var last := TasksOfLine(lines[n], decode, L);
    assert FileTasks(lines, decode, L) == before + last;
    if j < n {
      assert init[j] == lines[j];
      TaskKept(init, decode, L, j, i);
      assert TasksOfLine(lines[j], decode, L)[i] in before;
    } else {
      assert j == n;
      assert lines[j] == lines[n];
      assert last[i] in last;
    }
  }

  /** The prediction task list of the evaluation, or the exit that ends it: a missing
      sessions file, or no line giving a task. The lines are the non-blank
      lines of the file, sampled as intended when `n > 0`. */
  function BuildTasks(sessions: string, files: map<string, seq<string>>, n: int, sample: seq<string>,
                      decode: string -> Option<Json>, L: int): (r: Result<seq<EvalTask>>)
    requires sessions in files ==> IsSample(sample, Filter(files[sessions], NonBlank), n)
    ensures sessions !in files ==> r == Err("Errore: Il file " + sessions + " non esiste.")
    ensures sessions in files ==> r.Ok? || r == Err(NO_TASKS)
    ensures r.Ok? ==> r.value != []
  {
    if sessions !in files then Err("Errore: Il file " + sessions + " non esiste.")
    else
      var lines := Filter(files[sessions], NonBlank);
      var tasks := FileTasks(TaskLines(lines, sample, n), decode, L);
      if tasks == [] then Err(NO_TASKS) else Ok(tasks)
  }

  // ---------------------------------------------------------------------
  // Scoring
  // ---------------------------------------------------------------------

  /** The comparison this script makes: the first pipeline segments have
      the same name and agreeing paths. A candidate or an expected command
      that normalises to nothing matches nothing. */
  predicate Matches(nc: seq<(string, string)>, ne: seq<(string, string)>) {
    nc != [] && ne != [] && nc[0].0 == ne[0].0 && PathsAgree(ne[0].1, nc[0].1)
  }

  /** The 1-based rank of the first candidate that matches, 0 when none
      does; `keys[j]` is the normalised form of candidate `j`. */
  function MatchRank(keys: seq<seq<(string, string)>>, ne: seq<(string, string)>): (r: nat)
    ensures r <= |keys|
    ensures r > 0 ==> Matches(keys[r - 1], ne)
    ensures forall j :: 0 <= j < (if r == 0 then |keys| else r - 1) ==> !Matches(keys[j], ne)
  {
    if keys == [] then 0
    else if Matches(keys[0], ne) then 1
    else
      var r := MatchRank(keys[1..], ne);
      if r == 0 then 0 else r + 1
  }

  /** `MatchRank` is the only rank whose candidate matches and whose earlier
      candidates all do not. */
  lemma MatchRankIsFirst(keys: seq<seq<(string, string)>>, ne: seq<(string, string)>, rank: nat)
    requires rank <= |keys|
    requires rank > 0 ==> Matches(keys[rank - 1], ne)
    requires forall j :: 0 <= j < (if rank == 0 then |keys| else rank - 1) ==> !Matches(keys[j], ne)
    ensures rank == MatchRank(keys, ne)
  {
  }

  /** The evaluation of one answer: nothing is compared when the expected
      command normalises to nothing; candidates that normalise to nothing
      are passed over; the first match ends the loop. */
  method RankCandidates(keys: seq<seq<(string, string)>>, ne: seq<(string, string)>) returns (rank: nat)
    ensures rank == MatchRank(keys, ne)
  {
    rank := 0;
    if ne == [] {
      MatchRankIsFirst(keys, ne, rank);
      return;
    }
    var (expName, expPath) := ne[0];
    var i := 0;
    while i < |keys|
      invariant 0 <= i <= |keys|
      invariant forall j :: 0 <= j < i ==> !Matches(keys[j], ne)
    {
      var nc := keys[i];
      if nc == [] {
        i := i + 1;
        continue;
      }
      var (candName, candPath) := nc[0];
      if candName == expName {
        if expPath == "" || candPath == "" || Contains(candPath, expPath) || Contains(expPath, candPath) {
          rank := i + 1;
          break;
        }
      }
      i := i + 1;
    }
    MatchRankIsFirst(keys, ne, rank);
  }

  /** Every candidate prompting/core_rag.py accepts is accepted here, so
      whenever that script finds a hit this one does too, at the same rank
      or an earlier one. */
  lemma LooserThanDbHitRule(keys: seq<seq<(string, string)>>, ne: seq<(string, string)>)
    ensures RagDbHit.MatchRank(keys, ne) > 0 ==> 0 < MatchRank(keys, ne) <= RagDbHit.MatchRank(keys, ne)
  {
    var strict := RagDbHit.MatchRank(keys, ne);
    if strict > 0 {
      assert Matches(keys[strict - 1], ne);
    }
  }

  /** The record of a task, given the documents the query returned and the
      model's answer (`""` when there is none). */
  function OutcomeOf(t: EvalTask, found: seq<Doc>, raw: string, k: int): Outcome {
    var cands := Candidates(raw, k);
    var rank := MatchRank(CandidateKeys(cands), NormalizeForCompare(t.expected));
    Outcome(t, cands, rank, CheckContamination(t.expected, Retrieve(t.context, found)))
  }

  /** A task's record: its candidates are the parsed answer and its rank
      is at most their number. */
  lemma OutcomeRanked(t: EvalTask, found: seq<Doc>, raw: string, k: int)
    ensures var o := OutcomeOf(t, found, raw, k);
      Ranked(o) && o.task == t && o.candidates == Candidates(raw, k)
  {
  }

  /** A hit is the first candidate that matches the expected command, and
      the flag is the contamination check on what was retrieved. */
  lemma OutcomeRank(t: EvalTask, found: seq<Doc>, raw: string, k: int)
    ensures var o := OutcomeOf(t, found, raw, k);
      var keys, ne := CandidateKeys(Candidates(raw, k)), NormalizeForCompare(t.expected);
      && (o.rank > 0 ==> Matches(keys[o.rank - 1], ne))
      && (forall i :: 0 <= i < (if o.rank == 0 then |keys| else o.rank - 1) ==> !Matches(keys[i], ne))
      && o.flagged == CheckContamination(t.expected, Retrieve(t.context, found))
  {
  }

  /** Scoring one task. */
  method ScoreTask(t: EvalTask, found: seq<Doc>, raw: string, k: int) returns (o: Outcome)
    ensures o == OutcomeOf(t, found, raw, k)
  {
    var retrieved := Retrieve(t.context, found);
    var contaminated := CheckContamination(t.expected, retrieved);
    var cands := Candidates(raw, k);
    var ne := NormalizeForCompare(t.expected);
    var rank := RankCandidates(CandidateKeys(cands), ne);
    o := Outcome(t, cands, rank, contaminated);
  }

  /** The records of the first `n` tasks, one per task. */
  function Records(tasks: seq<EvalTask>, found: seq<seq<Doc>>, replies: seq<string>, k: int, n: nat): (r: seq<Outcome>)
    requires n <= |tasks| && |found| == |tasks| && |replies| == |tasks|
  {
    Scored(OutcomeOf, tasks, found, replies, k, n)
  }

  /** The evaluation loop, given for each task the documents the query
      returned and the model's answer: every task is scored. */
  method Evaluate(tasks: seq<EvalTask>, found: seq<seq<Doc>>, replies: seq<string>, k: int)
    returns (outs: seq<Outcome>, topk: nat, top1: nat, empty: nat)
    requires |found| == |tasks| && |replies| == |tasks|
    ensures outs == Records(tasks, found, replies, k, |tasks|)
    ensures topk == Count(outs, Hit) && top1 == Count(outs, Top1) && empty == Count(outs, Empty)
  {
    outs, topk, top1, empty := [], 0, 0, 0;
    var i := 0;
    while i < |tasks|
      invariant 0 <= i <= |tasks| && |outs| == i
      invariant outs == Records(tasks, found, replies, k, i)
      invariant topk == Count(outs, Hit) && top1 == Count(outs, Top1) && empty == Count(outs, Empty)
    {
      var o := ScoreTask(tasks[i], found[i], replies[i], k);
      ScoredStep(OutcomeOf, tasks, found, replies, k, i, outs, o);
      topk, top1, empty := CountOutcome(o, topk, top1, empty);
      outs := outs + [o];
      i := i + 1;
    }
  }

  /** A run over a non-empty task list reaches the summary, whose rates are
      bounded (`top1 <= topk <= total - empty`) and whose contaminated and
      clean hits add up to the top-k hits. */
  lemma RunSummary(tasks: seq<EvalTask>, found: seq<seq<Doc>>, replies: seq<string>, k: int)
    requires tasks != [] && |found| == |tasks| && |replies| == |tasks|
    ensures var s := Summarize(Records(tasks, found, replies, k, |tasks|));
      s.Ok? && s.value.total == |tasks| && s.value.top1 <= s.value.topk <= s.value.total - s.value.empty
      && s.value.flagged + s.value.clean == s.value.topk
  {
    var outs := Records(tasks, found, replies, k, |tasks|);
    forall j | 0 <= j < |outs| ensures Ranked(outs[j]) {
      ScoredAt(OutcomeOf, tasks, found, replies, k, |tasks|, j);
      OutcomeRanked(tasks[j], found[j], replies[j], k);
    }
  }
}
