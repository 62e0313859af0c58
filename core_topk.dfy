/** The top-k evaluation of next-command prediction (prompting/core_topk.py):
    prediction tasks are cut from recorded sessions (or given as single
    commands), the model's answer is split into at most `k` candidates, and a
    candidate hits when its first pipeline segment agrees with the expected
    command's by name and path. */
module TopK {
  import opened Outcomes
  import opened PyText
  import opened Seqs
  import opened JsonValue
  import opened Windows
  import opened PromptUtils

  /** One prediction task; `expected` is absent in single mode. */
  datatype Task = Task(session: Json, index: nat, context: seq<string>, expected: Option<string>)

  /** The command-line options the evaluation reads. */
  datatype Args = Args(sessions: string, singleCmd: string, singleFile: string, contextLen: int, n: int, k: int)

  // ---------------------------------------------------------------------
  // Building the tasks
  // ---------------------------------------------------------------------

  /** One line of the sessions file: skipped when blank or not JSON; a JSON
      value other than an object makes `obj.get` raise; otherwise kept with
      the first truthy of `session`, `session_id`, `id` and of `commands`,
      `cmds`, `commands_list` when both are truthy and the commands have a
      length of at least two, and `len` raises on commands without one. */
  function SessionOf(line: string, decode: string -> Option<Json>): (r: Result<Option<(Json, Json)>>)
    ensures r.Ok? && r.value.Some? ==>
      Truthy(r.value.value.0) && Len(r.value.value.1).Some? && Len(r.value.value.1).value >= 2
    ensures Strip(line) == "" ==> r == Ok(None)
    ensures r.Err? ==> Strip(line) != "" && decode(Strip(line)).Some?
    ensures Strip(line) != "" && decode(Strip(line)).Some? && !decode(Strip(line)).value.JObj? ==> r.Err?
  {
    var ln := Strip(line);
    if ln == "" then Ok(None)
    else match decode(ln)
      case None => Ok(None)
      case Some(obj) =>
        if !obj.JObj? then Err("AttributeError: object has no attribute 'get'")
        else
          var f := obj.fields;
          var sid := Or(Or(Get(f, "session"), Get(f, "session_id")), Get(f, "id"));
          var cmds := Or(Or(Get(f, "commands"), Get(f, "cmds")), Get(f, "commands_list"));
          if !Truthy(sid) || !Truthy(cmds) then Ok(None)
          else match Len(cmds)
            case None => Err("TypeError: object has no len()")
            case Some(n) => if n < 2 then Ok(None) else Ok(Some((sid, cmds)))
  }

  /** The kept sessions of the file, in file order, or the exception of the
      first line that raises. */
  function Sessions(lines: seq<string>, decode: string -> Option<Json>): (r: Result<seq<(Json, Json)>>)
    ensures r.Ok? ==> |r.value| <= |lines|
    ensures r.Ok? ==> forall j :: 0 <= j < |r.value| ==>
      Truthy(r.value[j].0) && Len(r.value[j].1).Some? && Len(r.value[j].1).value >= 2
  {
    if lines == [] then Ok([])
    else match Sessions(lines[..|lines| - 1], decode)
      case Err(e) => Err(e)
      case Ok(init) =>
        match SessionOf(lines[|lines| - 1], decode)
        case Err(e) => Err(e)
        case Ok(None) => Ok(init)
        case Ok(Some(s)) => Ok(init + [s])
  }

  /** Loading fails exactly when some line raises. */
  lemma {:induction false} SessionsErr(lines: seq<string>, decode: string -> Option<Json>)
    ensures Sessions(lines, decode).Err? <==> exists k :: 0 <= k < |lines| && SessionOf(lines[k], decode).Err?
  {
    if lines != [] {
      var init, last := lines[..|lines| - 1], lines[|lines| - 1];
      SessionsErr(init, decode);
      if Sessions(init, decode).Err? {
        var k :| 0 <= k < |init| && SessionOf(init[k], decode).Err?;
        assert lines[k] == init[k];
      } else if SessionOf(last, decode).Ok? {
        forall k | 0 <= k < |lines| ensures SessionOf(lines[k], decode).Ok? {
          if k < |init| {
            assert lines[k] == init[k];
          }
        }
      }
    }
  }

  /** The sessions the task loop cuts, with their commands, or the error
      it raises first. */
  function LoadedSessions(lines: seq<string>, decode: string -> Option<Json>): (r: Result<seq<(Json, seq<string>)>>)
    ensures r.Ok? ==> forall j :: 0 <= j < |r.value| ==> |r.value[j].1| >= 2
  {
    match Sessions(lines, decode)
    case Err(e) => Err(e)
    case Ok(raw) => CommandLists(raw, 2)
  }

  /** The prediction task that predicts command `i + 1` of a session. */
  function TaskAt(sid: Json, cmds: seq<string>, i: nat, L: int): Task
    requires i + 1 < |cmds|
  {
    Task(sid, i, Window(cmds, i, L), Some(cmds[i + 1]))
  }

  /** The first `n` tasks of a session. */
  function SessionTasks(sid: Json, cmds: seq<string>, n: nat, L: int): (r: seq<Task>)
    requires n < |cmds|
    ensures |r| == n
    ensures forall i :: 0 <= i < n ==> r[i] == TaskAt(sid, cmds, i, L)
  {
    if n == 0 then [] else SessionTasks(sid, cmds, n - 1, L) + [TaskAt(sid, cmds, n - 1, L)]
  }

  /** The tasks of every session: a session of `m` commands gives `m - 1`. */
  function AllTasks(sessions: seq<(Json, seq<string>)>, L: int): (r: seq<Task>)
    requires forall j :: 0 <= j < |sessions| ==> |sessions[j].1| >= 1
  {
    if sessions == [] then []
    else
      var last := sessions[|sessions| - 1];
      AllTasks(sessions[..|sessions| - 1], L) + SessionTasks(last.0, last.1, |last.1| - 1, L)
  }

  /** The number of tasks the sessions give. */
  function TaskCount(sessions: seq<(Json, seq<string>)>): nat
    requires forall j :: 0 <= j < |sessions| ==> |sessions[j].1| >= 1
  {
    if sessions == [] then 0 else TaskCount(sessions[..|sessions| - 1]) + |sessions[|sessions| - 1].1| - 1
  }

  lemma {:induction false} AllTasksCount(sessions: seq<(Json, seq<string>)>, L: int)
    requires forall j :: 0 <= j < |sessions| ==> |sessions[j].1| >= 1
    ensures |AllTasks(sessions, L)| == TaskCount(sessions)
  {
    if sessions != [] {
      AllTasksCount(sessions[..|sessions| - 1], L);
    }
  }

  /** Every session task predicts the command that follows its context:
      the context is not empty, ends with the command at the prediction task's index,
      and holds at most `L` commands, when `L >= 1`. */
  lemma SessionTaskShape(sid: Json, cmds: seq<string>, i: nat, L: int)
    requires i + 1 < |cmds| && L >= 1
    ensures var t := TaskAt(sid, cmds, i, L);
      t.context != [] && t.context[|t.context| - 1] == cmds[i] && |t.context| <= L
      && t.expected == Some(cmds[i + 1]) && t.index == i
  {
    WindowShape(cmds, i, L);
  }

  /** The commands of single mode: the stripped `--single-cmd` when it is
      given, then the non-blank stripped lines of `--single-file`. */
  function SingleTasks(cmds: seq<string>): (r: seq<Task>)
    ensures |r| == |cmds|
    ensures forall j :: 0 <= j < |r| ==> r[j] == Task(JStr("single"), 0, [cmds[j]], None)
  {
    if cmds == [] then [] else SingleTasks(cmds[..|cmds| - 1]) + [Task(JStr("single"), 0, [cmds[|cmds| - 1]], None)]
  }

  /** The prediction task list before selection, or the exit the script takes. The
      files are given by their lines. */
  function BuildTasks(args: Args, files: map<string, seq<string>>, decode: string -> Option<Json>): Result<seq<Task>> {
    if args.sessions != "" then
      if args.sessions !in files then Err("Sessions file not found: " + args.sessions)
      else match LoadedSessions(files[args.sessions], decode)
        case Err(e) => Err(e)
        case Ok(sessions) => Ok(AllTasks(sessions, args.contextLen))
    else if args.singleCmd != "" || args.singleFile != "" then
      var fromCmd := if args.singleCmd != "" then [Strip(args.singleCmd)] else [];
      if args.singleFile != "" && args.singleFile !in files then Err("Single-file not found: " + args.singleFile)
      else
        var fromFile := if args.singleFile != "" then StrippedNonEmpty(files[args.singleFile]) else [];
        Ok(SingleTasks(fromCmd + fromFile))
    else Err("Provide --sessions OR --single-cmd OR --single-file")
  }

  /** Sessions mode wins over single mode, and every task it builds
      expects a command; single mode never does. */
  lemma BuildTasksModes(args: Args, files: map<string, seq<string>>, decode: string -> Option<Json>)
    ensures args.sessions != "" && args.sessions in files ==>
      (BuildTasks(args, files, decode).Ok? <==> LoadedSessions(files[args.sessions], decode).Ok?)
    ensures args.sessions != "" && BuildTasks(args, files, decode).Ok? ==>
      forall j :: 0 <= j < |BuildTasks(args, files, decode).value| ==> BuildTasks(args, files, decode).value[j].expected.Some?
    ensures args.sessions == "" && BuildTasks(args, files, decode).Ok? ==>
      forall j :: 0 <= j < |BuildTasks(args, files, decode).value| ==> BuildTasks(args, files, decode).value[j].expected.None?
    ensures args.sessions == "" && args.singleCmd == "" && args.singleFile == "" ==> BuildTasks(args, files, decode).Err?
  {
    if args.sessions != "" && args.sessions in files && LoadedSessions(files[args.sessions], decode).Ok? {
      AllTasksExpect(LoadedSessions(files[args.sessions], decode).value, args.contextLen);
    }
  }

  lemma {:induction false} AllTasksExpect(sessions: seq<(Json, seq<string>)>, L: int)
    requires forall j :: 0 <= j < |sessions| ==> |sessions[j].1| >= 1
    ensures forall j :: 0 <= j < |AllTasks(sessions, L)| ==> AllTasks(sessions, L)[j].expected.Some?
  {
    if sessions != [] {
      AllTasksExpect(sessions[..|sessions| - 1], L);
    }
  }

  /** `tasks[:n]` after `random.shuffle(tasks)` when `n > 0`; `shuffled` is
      the order the shuffle produced. */
  function Select(tasks: seq<Task>, shuffled: seq<Task>, n: int): (r: seq<Task>)
    requires multiset(shuffled) == multiset(tasks)
    ensures n > 0 ==> |r| <= n && multiset(r) <= multiset(tasks)
    ensures n <= 0 ==> r == tasks
  {
    if n > 0 then
      var r := Take(shuffled, n);
      assert shuffled == r + shuffled[|r|..];
      r
    else tasks
  }

  // ---------------------------------------------------------------------
  // Scoring the answers
  // ---------------------------------------------------------------------

  /** What the model call gave: its text, or the exception it raised. */
  datatype Reply = Answer(text: string) | Raised(error: string)

  /** `[c.strip() for c in raw.splitlines()[:k] if c.strip()]`. */
  function GeminiCandidates(raw: string, k: int): (r: seq<string>)
    ensures k >= 0 ==> |r| <= k
    ensures forall j :: 0 <= j < |r| ==> r[j] != "" && !IsSpace(r[j][0]) && !IsSpace(r[j][|r[j]| - 1])
  {
    StrippedNonEmpty(Take(SplitLines(raw), k))
  }

  /** The permissive comparison of a candidate's first key with the
      expected one: the same non-empty name, and when the expected path is
      not empty the same path or one a prefix of the other. */
  predicate KeyHit(cand: (string, string), exp: (string, string)) {
    cand.0 == exp.0 && cand.0 != ""
    && (exp.1 != "" ==> cand.1 == exp.1 || (cand.1 != "" && (cand.1 <= exp.1 || exp.1 <= cand.1)))
  }

  /** A candidate hits when it has a first key and that key hits. */
  predicate CandidateHits(keys: seq<(string, string)>, exp: (string, string)) {
    keys != [] && KeyHit(keys[0], exp)
  }

  /** The 1-based rank of the first candidate that hits, 0 when none does;
      `keys[j]` is the normalised form of candidate `j`. */
  function HitRank(keys: seq<seq<(string, string)>>, exp: (string, string)): (r: nat)
    ensures r <= |keys|
    ensures r > 0 ==> CandidateHits(keys[r - 1], exp)
    ensures forall j :: 0 <= j < (if r == 0 then |keys| else r - 1) ==> !CandidateHits(keys[j], exp)
  {
    if keys == [] then 0
    else if CandidateHits(keys[0], exp) then 1
    else
      var r := HitRank(keys[1..], exp);
      if r == 0 then 0 else r + 1
  }

  /** The rank a task's candidates reach: there is none without an expected
      command, without candidates, or when the expected command has no key. */
  function TaskRank(t: Task, cands: seq<string>): (r: nat)
    ensures r <= |cands|
    ensures t.expected.None? ==> r == 0
  {
    match t.expected
    case None => 0
    case Some(e) =>
      if e == "" || cands == [] || NormalizeForCompare(e) == [] then 0
      else HitRank(CandidateKeys(cands), NormalizeForCompare(e)[0])
  }

  /** The record written for one task; `rank` is 0 for a miss. */
  datatype Record = Record(task: Task, candidates: seq<string>, rank: nat, error: Option<string>)

  function RecordOf(t: Task, reply: Reply, k: int): (r: Record)
    ensures r.rank <= |r.candidates|
    ensures r.task == t
  {
    var raw := if reply.Answer? then reply.text else "";
    var cands := GeminiCandidates(raw, k);
    Record(t, cands, TaskRank(t, cands), if reply.Raised? then Some(reply.error) else None)
  }

  predicate TopKHit(r: Record) { r.rank > 0 }
  predicate Top1Hit(r: Record) { r.rank == 1 }
  predicate NonEmpty(r: Record) { r.candidates != [] }

  /** The search over the ranked candidates, with its early exit. */
  method FindHit(keys: seq<seq<(string, string)>>, exp: (string, string)) returns (rank: nat)
    ensures rank == HitRank(keys, exp)
  {
    rank := 0;
    var i := 0;
    while i < |keys|
      invariant 0 <= i <= |keys|
      invariant forall j :: 0 <= j < i ==> !CandidateHits(keys[j], exp)
    {
      if keys[i] != [] && KeyHit(keys[i][0], exp) {
        rank := i + 1;
        break;
      }
      i := i + 1;
    }
    HitRankIsFirst(keys, exp, rank);
  }

  /** `HitRank` is the only rank whose candidate hits and whose earlier
      candidates all miss. */
  lemma HitRankIsFirst(keys: seq<seq<(string, string)>>, exp: (string, string), rank: nat)
    requires rank <= |keys|
    requires rank > 0 ==> CandidateHits(keys[rank - 1], exp)
    requires forall j :: 0 <= j < (if rank == 0 then |keys| else rank - 1) ==> !CandidateHits(keys[j], exp)
    ensures rank == HitRank(keys, exp)
  {
  }

  /** Parsing and scoring one task's reply. */
  method ScoreTask(t: Task, reply: Reply, k: int) returns (rec: Record)
    ensures rec == RecordOf(t, reply, k) && Consistent(rec)
  {
    var raw := if reply.Answer? then reply.text else "";
    var cands := GeminiCandidates(raw, k);
    var rank := 0;
    if t.expected.Some? && t.expected.value != "" && cands != [] {
      var expKeys := NormalizeForCompare(t.expected.value);
      if expKeys != [] {
        rank := FindHit(CandidateKeys(cands), expKeys[0]);
      }
    }
    assert rank == TaskRank(t, cands);
    var err := if reply.Raised? then Some(reply.error) else None;
    rec := Record(t, cands, rank, err);
  }

  /** A record never ranks past its candidates. */
  predicate Consistent(r: Record) { r.rank <= |r.candidates| }

  /** A rank-1 hit is a hit, and a hit needs a candidate. */
  lemma {:induction false} CountsOrdered(records: seq<Record>)
    requires forall j :: 0 <= j < |records| ==> Consistent(records[j])
    ensures Count(records, Top1Hit) <= Count(records, TopKHit) <= Count(records, NonEmpty)
  {
    if records != [] {
      assert Consistent(records[0]);
      CountsOrdered(records[1..]);
    }
  }

  /** The evaluation loop over the selected tasks, given the model's reply
      to each. The counters are the numbers of hits, of rank-1 hits and of
      tasks with a candidate, so `top1 <= topk <= nonEmpty <= |tasks|`. */
  method Evaluate(tasks: seq<Task>, replies: seq<Reply>, k: int)
    returns (records: seq<Record>, topk: nat, top1: nat, nonEmpty: nat)
    requires |replies| == |tasks|
    ensures |records| == |tasks|
    ensures forall j :: 0 <= j < |tasks| ==> records[j] == RecordOf(tasks[j], replies[j], k)
    ensures topk == Count(records, TopKHit) && top1 == Count(records, Top1Hit)
    ensures nonEmpty == Count(records, NonEmpty)
    ensures top1 <= topk <= nonEmpty <= |tasks|
  {
    records, topk, top1, nonEmpty := [], 0, 0, 0;
    for i := 0 to |tasks|
      invariant |records| == i
      invariant forall j :: 0 <= j < i ==> records[j] == RecordOf(tasks[j], replies[j], k)
      invariant topk == Count(records, TopKHit) && top1 == Count(records, Top1Hit)
      invariant nonEmpty == Count(records, NonEmpty)
    {
      var rec := ScoreTask(tasks[i], replies[i], k);
      RecordsStep(tasks, replies, k, records, rec);
      Tally(records, rec);
      if rec.rank > 0 { topk := topk + 1; }
      if rec.rank == 1 { top1 := top1 + 1; }
      if rec.candidates != [] { nonEmpty := nonEmpty + 1; }
      records := records + [rec];
    }
    RecordsConsistent(tasks, replies, k, records);
    CountsOrdered(records);
  }

  /** Scoring one more task extends the records by its record. */
  lemma RecordsStep(tasks: seq<Task>, replies: seq<Reply>, k: int, records: seq<Record>, rec: Record)
    requires |replies| == |tasks| && |records| < |tasks|
    requires forall j :: 0 <= j < |records| ==> records[j] == RecordOf(tasks[j], replies[j], k)
    requires rec == RecordOf(tasks[|records|], replies[|records|], k)
    ensures forall j :: 0 <= j < |records| + 1 ==> (records + [rec])[j] == RecordOf(tasks[j], replies[j], k)
  {
  }

  /** Records made by scoring are consistent. */
  lemma RecordsConsistent(tasks: seq<Task>, replies: seq<Reply>, k: int, records: seq<Record>)
    requires |replies| == |tasks| && |records| == |tasks|
    requires forall j :: 0 <= j < |records| ==> records[j] == RecordOf(tasks[j], replies[j], k)
    ensures forall j :: 0 <= j < |records| ==> Consistent(records[j])
  {
  }

  /** How one more record moves the three counters. */
  lemma Tally(records: seq<Record>, rec: Record)
    ensures Count(records + [rec], TopKHit) == Count(records, TopKHit) + (if rec.rank > 0 then 1 else 0)
    ensures Count(records + [rec], Top1Hit) == Count(records, Top1Hit) + (if rec.rank == 1 then 1 else 0)
    ensures Count(records + [rec], NonEmpty) == Count(records, NonEmpty) + (if rec.candidates != [] then 1 else 0)
  {
    CountAppend(records, [rec], TopKHit);
    CountAppend(records, [rec], Top1Hit);
    CountAppend(records, [rec], NonEmpty);
  }

  /** Single mode never counts a hit: no task there expects a command. */
  lemma SingleModeNoHits(cmds: seq<string>, replies: seq<Reply>, k: int, records: seq<Record>)
    requires |replies| == |cmds| && |records| == |cmds|
    requires forall j :: 0 <= j < |cmds| ==> records[j] == RecordOf(SingleTasks(cmds)[j], replies[j], k)
    ensures Count(records, TopKHit) == 0
  {
    NoneCounted(records, TopKHit);
  }

  lemma {:induction false} NoneCounted<T>(s: seq<T>, p: T -> bool)
    requires forall j :: 0 <= j < |s| ==> !p(s[j])
    ensures Count(s, p) == 0
  {
    if s != [] {
      NoneCounted(s[1..], p);
    }
  }
}
