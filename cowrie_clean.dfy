/** `inspectDataset/analyze_and_clean.py`: grouping the command events of a
    Cowrie export by session, counting every event by its id, writing the
    RAW and CLEAN session files and dropping sessions that are too short. */
module CowrieClean {
  import opened Outcomes
  import opened PyText
  import opened Seqs
  import opened JsonValue
  import opened CowrieNormalize
  import opened CowrieStream
  import PyPath

  const COMMAND_INPUT := "cowrie.command.input"
  const UNHASHABLE := "TypeError: unhashable type"
  const MIN_LENGTH := 5

  // ---------------------------------------------------------------------
  // One event
  // ---------------------------------------------------------------------

  /** `ev.get("eventid")`, which must be usable as a `Counter` key: lists
      and objects are not hashable, and a non-object event has no `get`. */
  function EventId(ev: Json): (r: Result<Json>)
    ensures r.Ok? <==> ev.JObj? && !Get(ev.fields, "eventid").JArr? && !Get(ev.fields, "eventid").JObj?
    ensures r.Ok? ==> r.value == Get(ev.fields, "eventid")
  {
    match ev
    case JObj(m) =>
      var id := Get(m, "eventid");
      if id.JArr? || id.JObj? then Err(UNHASHABLE) else Ok(id)
    case _ => Err(NO_GET)
  }

  /** The text of a command event: the first truthy of the fields `data`,
      `input`, `command`, `payload`, `message`, when it is a non-empty
      string. Any other event contributes no command. */
  function CommandOf(ev: Json): (r: Option<string>)
    ensures r.Some? ==> r.value != [] && ev.JObj? && Get(ev.fields, "eventid") == JStr(COMMAND_INPUT)
    ensures (ev.JObj? && Get(ev.fields, "eventid") == JStr(COMMAND_INPUT) && Get(ev.fields, "data").JStr?
      && Get(ev.fields, "data").s != "") ==> r == Some(Get(ev.fields, "data").s)
  {
    match ev
    case JObj(m) =>
      if Get(m, "eventid") != JStr(COMMAND_INPUT) then None
      else
        var cmd := Or(Or(Or(Or(Get(m, "data"), Get(m, "input")), Get(m, "command")), Get(m, "payload")), Get(m, "message"));
        if cmd.JStr? && cmd.s != "" then Some(cmd.s) else None
    case _ => None
  }

  /** `cmd[5:]` after `cmd.startswith("CMD: ")`, then `strip()`. */
  function RawCommand(cmd: string): (r: string)
    ensures Stripped(r)
    ensures !At(cmd, 0, "CMD: ") ==> r == Strip(cmd)
  {
    Strip(if At(cmd, 0, "CMD: ") then cmd[5..] else cmd)
  }

  /** The `sessions` defaultdict (its keys in insertion order in `order`)
      and the `event_counter` Counter. */
  datatype Groups = Groups(sessions: map<string, seq<string>>, order: seq<string>, counter: map<Json, nat>)

  const NO_GROUPS := Groups(map[], [], map[])

  function Tally(counter: map<Json, nat>, e: Json): nat {
    if e in counter then counter[e] else 0
  }

  function Lookup(sessions: map<string, seq<string>>, sid: string): seq<string> {
    if sid in sessions then sessions[sid] else []
  }

  /** The body of the event loop of `analyze_cowrie_dataset`. */
  function AnalyzeEvent(g: Groups, sid: string, ev: Json): Result<Groups> {
    match EventId(ev)
    case Err(e) => Err(e)
    case Ok(id) =>
      var counter := g.counter[id := Tally(g.counter, id) + 1];
      match CommandOf(ev)
      case None => Ok(Groups(g.sessions, g.order, counter))
      case Some(cmd) =>
        var order := if sid in g.sessions then g.order else g.order + [sid];
        Ok(Groups(g.sessions[sid := Lookup(g.sessions, sid) + [RawCommand(cmd)]], order, counter))
  }

  /** The grouping loop over a whole export. */
  function Group(objs: seq<SessionObj>): Result<Groups> {
    Fold(NO_GROUPS, Stream("", objs), AnalyzeEvent)
  }

  method GroupSessions(objs: seq<SessionObj>) returns (r: Result<Groups>)
    ensures r == Group(objs)
  {
    r := FoldStream(NO_GROUPS, "", objs, AnalyzeEvent);
  }

  // ---------------------------------------------------------------------
  // What the grouping computes, stated over the stream of events
  // ---------------------------------------------------------------------

  /** `ev.get("eventid")` for an event object. */
  function IdOf(ev: Json): Json {
    if ev.JObj? then Get(ev.fields, "eventid") else JNull
  }

  /** How many events of the stream carry the id `e`. */
  function TallyIn(steps: seq<Step>, e: Json): nat
    decreases |steps|
  {
    if steps == [] then 0
    else
      var last := steps[|steps| - 1];
      TallyIn(steps[..|steps| - 1], e) + (if last.Ev? && IdOf(last.ev) == e then 1 else 0)
  }

  /** The commands of session `sid`, in stream order. */
  function CommandsIn(steps: seq<Step>, sid: string): seq<string>
    decreases |steps|
  {
    if steps == [] then []
    else
      var last := steps[|steps| - 1];
      var before := CommandsIn(steps[..|steps| - 1], sid);
      if last.Ev? && last.sid == sid && CommandOf(last.ev).Some? then before + [RawCommand(CommandOf(last.ev).value)]
      else before
  }

  /** Session ids in the order their first command appears. */
  function FirstSeen(steps: seq<Step>): seq<string>
    decreases |steps|
  {
    if steps == [] then []
    else
      var last := steps[|steps| - 1];
      var before := FirstSeen(steps[..|steps| - 1]);
      if last.Ev? && CommandOf(last.ev).Some? && CommandsIn(steps[..|steps| - 1], last.sid) == [] then before + [last.sid]
      else before
  }

  ghost predicate Summarizes(steps: seq<Step>, g: Groups) {
    && (forall e :: Tally(g.counter, e) == TallyIn(steps, e))
    && (forall sid :: Lookup(g.sessions, sid) == CommandsIn(steps, sid))
    && (forall sid :: sid in g.sessions <==> CommandsIn(steps, sid) != [])
    && g.order == FirstSeen(steps)
  }

  /** Whatever completes without an exception: the counter holds, for every
      event id, the number of events carrying it, command or not; each
      session holds exactly the commands of its id in event order, and a
      session exists exactly when it has a command; the insertion order is
      the order of first commands. */
  lemma {:induction false} GroupSummary(steps: seq<Step>, g: Groups)
    requires Fold(NO_GROUPS, steps, AnalyzeEvent) == Ok(g)
    ensures Summarizes(steps, g)
    decreases |steps|
  {
    if steps != [] {
      var init := steps[..|steps| - 1];
      var last := steps[|steps| - 1];
      FoldLast(NO_GROUPS, steps, AnalyzeEvent, g);
      var r0 := Fold(NO_GROUPS, init, AnalyzeEvent);
      GroupSummary(init, r0.value);
      GroupStep(init, last, r0.value, g);
    }
  }

  lemma GroupStep(init: seq<Step>, last: Step, h: Groups, g: Groups)
    requires Summarizes(init, h) && last.Ev? && AnalyzeEvent(h, last.sid, last.ev) == Ok(g)
    ensures Summarizes(init + [last], g)
  {
    AnalyzeEventShape(h, last.sid, last.ev, g);
    TallyStep(init, last, h.counter, g.counter);
    SessionsStep(init, last, h, g);
  }

  /** What one successful event does to the grouping state. */
  lemma AnalyzeEventShape(h: Groups, sid: string, ev: Json, g: Groups)
    requires AnalyzeEvent(h, sid, ev) == Ok(g)
    ensures g.counter == h.counter[IdOf(ev) := Tally(h.counter, IdOf(ev)) + 1]
    ensures CommandOf(ev).None? ==> g.sessions == h.sessions && g.order == h.order
    ensures CommandOf(ev).Some? ==>
      && g.sessions == h.sessions[sid := Lookup(h.sessions, sid) + [RawCommand(CommandOf(ev).value)]]
      && g.order == if sid in h.sessions then h.order else h.order + [sid]
  {
  }

  /** Counting one more event. */
  lemma TallyStep(init: seq<Step>, last: Step, c: map<Json, nat>, c': map<Json, nat>)
    requires forall e :: Tally(c, e) == TallyIn(init, e)
    requires last.Ev? && c' == c[IdOf(last.ev) := Tally(c, IdOf(last.ev)) + 1]
    ensures forall e :: Tally(c', e) == TallyIn(init + [last], e)
  {
    assert (init + [last])[..|init|] == init;
  }

  /** Grouping one more event's command, if it has one. */
  lemma SessionsStep(init: seq<Step>, last: Step, h: Groups, g: Groups)
    requires forall sid :: Lookup(h.sessions, sid) == CommandsIn(init, sid)
    requires forall sid :: sid in h.sessions <==> CommandsIn(init, sid) != []
    requires h.order == FirstSeen(init)
    requires last.Ev?
    requires CommandOf(last.ev).None? ==> g.sessions == h.sessions && g.order == h.order
    requires CommandOf(last.ev).Some? ==>
      && g.sessions == h.sessions[last.sid := Lookup(h.sessions, last.sid) + [RawCommand(CommandOf(last.ev).value)]]
      && g.order == if last.sid in h.sessions then h.order else h.order + [last.sid]
    ensures forall sid :: Lookup(g.sessions, sid) == CommandsIn(init + [last], sid)
    ensures forall sid :: sid in g.sessions <==> CommandsIn(init + [last], sid) != []
    ensures g.order == FirstSeen(init + [last])
  {
    assert (init + [last])[..|init|] == init;
  }

  /** The insertion order lists each session once, and only sessions. */
  lemma {:induction false} FirstSeenKeys(steps: seq<Step>)
    ensures Distinct(FirstSeen(steps))
    ensures forall sid :: sid in FirstSeen(steps) <==> CommandsIn(steps, sid) != []
    decreases |steps|
  {
    if steps != [] {
      var init := steps[..|steps| - 1];
      FirstSeenKeys(init);
    }
  }

  // ---------------------------------------------------------------------
  // filter_short_sessions
  // ---------------------------------------------------------------------

  const NO_LEN := "TypeError: object has no len()"
  const LIST_INDEX := "TypeError: list indices must be integers or slices, not str"
  const STR_INDEX := "TypeError: string indices must be integers, not 'str'"
  const NOT_CONTAINER := "TypeError: argument is not iterable"

  /** A record with at least `min` commands. */
  predicate Long(j: Json, min: int) {
    j.JObj? && "commands" in j.fields && Len(j.fields["commands"]).Some? && Len(j.fields["commands"]).value >= min
  }

  /** The test on one line of the file: `None` is a line that is not JSON
      and is skipped. `"commands" in obj` looks at the keys of an object,
      the items of a list and the substrings of a string; on the last two a
      hit makes `obj["commands"]` raise, and numbers, booleans and `null`
      cannot be searched at all. */
  function KeepLine(line: Option<Json>, min: int): (r: Result<bool>)
    ensures r == Ok(true) <==> line.Some? && Long(line.value, min)
    ensures line.Some? && line.value.JObj? && "commands" in line.value.fields && line.value.fields["commands"].JArr? ==> r.Ok?
    ensures line.None? ==> r == Ok(false)
  {
    match line
    case None => Ok(false)
    case Some(JObj(m)) =>
      if "commands" !in m then Ok(false)
      else (match Len(m["commands"]) case None => Err(NO_LEN) case Some(n) => Ok(n >= min))
    case Some(JArr(xs)) => if JStr("commands") in xs then Err(LIST_INDEX) else Ok(false)
    case Some(JStr(t)) => if Contains(t, "commands") then Err(STR_INDEX) else Ok(false)
    case Some(_) => Err(NOT_CONTAINER)
  }

  /** The records the file keeps, or the exception that stops the pass. */
  function FilterShort(lines: seq<Option<Json>>, min: int): (r: Result<seq<Json>>)
    ensures r.Ok? ==> |r.value| <= |lines| && forall k :: 0 <= k < |r.value| ==> Long(r.value[k], min)
    decreases |lines|
  {
    if lines == [] then Ok([])
    else
      var last := lines[|lines| - 1];
      match FilterShort(lines[..|lines| - 1], min)
      case Err(e) => Err(e)
      case Ok(kept) =>
        match KeepLine(last, min)
        case Err(e) => Err(e)
        case Ok(keep) => Ok(if keep then kept + [last.value] else kept)
  }

  method FilterShortSessions(lines: seq<Option<Json>>, min: int) returns (r: Result<seq<Json>>)
    ensures r == FilterShort(lines, min)
  {
    var filtered: seq<Json> := [];
    var i := 0;
    while i < |lines|
      invariant 0 <= i <= |lines|
      invariant FilterShort(lines[..i], min) == Ok(filtered)
    {
      assert lines[..i + 1][..i] == lines[..i];
      var keep := KeepLine(lines[i], min);
      if keep.Err? {
        FilterShortErr(lines, i + 1, min);
        return Err(keep.error);
      }
      if keep.value {
        filtered := filtered + [lines[i].value];
      }
      i := i + 1;
    }
    assert lines[..i] == lines;
    return Ok(filtered);
  }

  /** An exception in a prefix is the exception of the whole pass. */
  lemma {:induction false} FilterShortErr(lines: seq<Option<Json>>, n: nat, min: int)
    requires n <= |lines| && FilterShort(lines[..n], min).Err?
    ensures FilterShort(lines, min) == FilterShort(lines[..n], min)
    decreases |lines| - n
  {
    if n < |lines| {
      assert lines[..n + 1][..n] == lines[..n];
      FilterShortErr(lines, n + 1, min);
    } else {
      assert lines[..n] == lines;
    }
  }

  function Lines(recs: seq<Json>): (r: seq<Option<Json>>)
    ensures |r| == |recs| && forall k :: 0 <= k < |recs| ==> r[k] == Some(recs[k])
  {
    seq(|recs|, k requires 0 <= k < |recs| => Some(recs[k]))
  }

  /** On the session records the tool writes, the pass raises nothing and
      keeps exactly the long ones, in file order. */
  lemma {:induction false} FilterShortRecords(recs: seq<Json>, min: int)
    requires forall k :: 0 <= k < |recs| ==> recs[k].JObj? && "commands" in recs[k].fields && recs[k].fields["commands"].JArr?
    ensures FilterShort(Lines(recs), min) == Ok(Filter(recs, (j: Json) => Long(j, min)))
    decreases |recs|
  {
    if recs != [] {
      var init := recs[..|recs| - 1];
      var last := recs[|recs| - 1];
      assert Lines(recs)[..|recs| - 1] == Lines(init);
      FilterShortRecords(init, min);
      FilterShortRecordsStep(recs, init, last, min, Filter(init, (j: Json) => Long(j, min)));
    }
  }

  lemma FilterShortRecordsStep(recs: seq<Json>, init: seq<Json>, last: Json, min: int, kept: seq<Json>)
    requires recs == init + [last] && kept == Filter(init, (j: Json) => Long(j, min))
    requires FilterShort(Lines(init), min) == Ok(kept)
    requires last.JObj? && "commands" in last.fields && last.fields["commands"].JArr?
    ensures FilterShort(Lines(recs), min) == Ok(Filter(recs, (j: Json) => Long(j, min)))
  {
    var ls := Lines(recs);
    assert ls != [] && ls[..|ls| - 1] == Lines(init) && ls[|ls| - 1] == Some(last);
    assert FilterShort(ls, min) == (match KeepLine(Some(last), min)
      case Err(e) => Err(e)
      case Ok(keep) => Ok(if keep then kept + [last] else kept));
    FilterAppend(init, [last], (j: Json) => Long(j, min));
    FilterSingle(last, (j: Json) => Long(j, min));
    assert KeepLine(Some(last), min) == Ok(Long(last, min));
    assert Filter(recs, (j: Json) => Long(j, min)) == kept + (if Long(last, min) then [last] else []);
    if !Long(last, min) {
      assert kept + [] == kept;
    }
  }

  // ---------------------------------------------------------------------
  // The date in the file name
  // ---------------------------------------------------------------------

  /** `\d{4}-\d{2}-\d{2}` matches at `i`. */
  predicate DateAt(s: string, i: nat) {
    && i + 10 <= |s|
    && IsDigit(s[i]) && IsDigit(s[i + 1]) && IsDigit(s[i + 2]) && IsDigit(s[i + 3])
    && s[i + 4] == '-' && IsDigit(s[i + 5]) && IsDigit(s[i + 6])
    && s[i + 7] == '-' && IsDigit(s[i + 8]) && IsDigit(s[i + 9])
  }

  /** `re.search` for a date from position `i` on. */
  function FirstDate(s: string, i: nat): (r: Option<nat>)
    ensures r.Some? ==> i <= r.value && DateAt(s, r.value) && forall j :: i <= j < r.value ==> !DateAt(s, j)
    ensures r.None? ==> forall j :: i <= j ==> !DateAt(s, j)
    decreases |s| - i
  {
    if i + 10 > |s| then None
    else if DateAt(s, i) then Some(i)
    else FirstDate(s, i + 1)
  }

  /** The first date in the base name of the input file, or `unknown`. */
  function FileDate(path: string): (r: string)
    ensures var name := PyPath.BaseName(path);
      && (r == "unknown" <==> forall j: nat :: !DateAt(name, j))
      && (r != "unknown" ==> exists i: nat :: DateAt(name, i) && name[i..i + 10] == r && forall j: nat :: j < i ==> !DateAt(name, j))
  {
    var name := PyPath.BaseName(path);
    match FirstDate(name, 0)
    case Some(i) => assert name[i..i + 10][4] == '-'; name[i..i + 10]
    case None => "unknown"
  }

  // ---------------------------------------------------------------------
  // The RAW and CLEAN session files
  // ---------------------------------------------------------------------

  /** `{"session": sid, "commands": cmds, "source_file": date}`. */
  function SessionRecord(sid: string, cmds: seq<string>, date: string): (r: Json)
    ensures r.JObj? && r.fields.Keys == {"session", "commands", "source_file"}
    ensures r.fields["commands"] == JArr(Map(cmds, (c: string) => JStr(c)))
    ensures Len(r.fields["commands"]) == Some(|cmds|)
  {
    JObj(map["session" := JStr(sid), "commands" := JArr(Map(cmds, (c: string) => JStr(c))), "source_file" := JStr(date)])
  }

  /** The records of the sessions `order`, `cmds` giving each one's commands. */
  function Records(order: seq<string>, cmds: string -> seq<string>, date: string): (r: seq<Json>)
    ensures |r| == |order| && forall k :: 0 <= k < |order| ==> r[k] == SessionRecord(order[k], cmds(order[k]), date)
  {
    Map(order, (sid: string) => SessionRecord(sid, cmds(sid), date))
  }

  /** The sessions of `order` with at least `MIN_LENGTH` commands. */
  function LongEnough(order: seq<string>, cmds: string -> seq<string>): seq<string> {
    Filter(order, (sid: string) => |cmds(sid)| >= MIN_LENGTH)
  }

  /** The commands as grouped, and as normalised for the CLEAN file. */
  function RawCmds(g: Groups): string -> seq<string> {
    (sid: string) => Lookup(g.sessions, sid)
  }

  function CleanCmds(g: Groups): string -> seq<string> {
    (sid: string) => Map(Lookup(g.sessions, sid), NormalizeCommand)
  }

  /** The lines written to the RAW file, one per session in insertion order. */
  function RawRecords(g: Groups, date: string): seq<Json> {
    Records(g.order, RawCmds(g), date)
  }

  /** The lines written to the CLEAN file: each session with its commands
      normalised, when that leaves any. */
  function CleanRecords(g: Groups, date: string): seq<Json> {
    Records(Filter(g.order, (sid: string) => CleanCmds(g)(sid) != []), CleanCmds(g), date)
  }

  /** What `analyze_cowrie_dataset` writes: the date tag, the two session
      files after filtering, and the statistics shared by both. */
  datatype Report = Report(date: string, raw: seq<Json>, clean: seq<Json>, nSessions: nat, eventTypes: map<Json, nat>)

  function Analyze(path: string, objs: seq<SessionObj>): Result<Report> {
    var date := FileDate(path);
    match Group(objs)
    case Err(e) => Err(e)
    case Ok(g) =>
      match FilterShort(Lines(RawRecords(g, date)), MIN_LENGTH)
      case Err(e) => Err(e)
      case Ok(raw) =>
        match FilterShort(Lines(CleanRecords(g, date)), MIN_LENGTH)
        case Err(e) => Err(e)
        case Ok(clean) => Ok(Report(date, raw, clean, |g.sessions|, g.counter))
  }

  /** Analysing an export raises exactly when grouping it does. */
  lemma AnalyzeOk(path: string, objs: seq<SessionObj>)
    ensures Analyze(path, objs).Ok? <==> Group(objs).Ok?
  {
    if Group(objs).Ok? {
      AnalyzeReport(path, objs, Group(objs).value);
    }
  }

  /** The sessions both files keep. */
  function Kept(g: Groups): seq<string> {
    LongEnough(g.order, RawCmds(g))
  }

  /** What a completed analysis reports: both session files keep the same
      sessions, those with at least `MIN_LENGTH` commands, in the order of
      their first command; the CLEAN file holds the RAW commands each
      normalised; the session count is the number of distinct sessions
      with a command; and the event table counts every event by its id. */
  lemma AnalyzeReport(path: string, objs: seq<SessionObj>, g: Groups)
    requires Group(objs) == Ok(g)
    ensures Analyze(path, objs).Ok?
    ensures var rep := Analyze(path, objs).value;
      && rep.date == FileDate(path)
      && |rep.raw| == |rep.clean| == |Kept(g)|
      && (forall k :: 0 <= k < |Kept(g)| ==>
            && rep.raw[k] == SessionRecord(Kept(g)[k], Lookup(g.sessions, Kept(g)[k]), rep.date)
            && rep.clean[k] == SessionRecord(Kept(g)[k], Map(Lookup(g.sessions, Kept(g)[k]), NormalizeCommand), rep.date))
      && rep.nSessions == |FirstSeen(Stream("", objs))| == |g.order|
      && forall e :: Tally(rep.eventTypes, e) == TallyIn(Stream("", objs), e)
  {
    GroupFacts(objs, g);
    AnalyzeIs(path, objs, g);
    KeptRecords(g, FileDate(path));
  }

  /** What grouping a whole export establishes about its result. */
  lemma GroupFacts(objs: seq<SessionObj>, g: Groups)
    requires Group(objs) == Ok(g)
    ensures forall k :: 0 <= k < |g.order| ==> Lookup(g.sessions, g.order[k]) != []
    ensures |g.sessions| == |FirstSeen(Stream("", objs))| == |g.order|
    ensures forall e :: Tally(g.counter, e) == TallyIn(Stream("", objs), e)
  {
    var steps := Stream("", objs);
    GroupSummary(steps, g);
    FirstSeenKeys(steps);
    SessionsCount(g, steps);
    NoEmptySession(g, steps);
  }

  /** The two record lists over the kept sessions, entry by entry. */
  lemma KeptRecords(g: Groups, date: string)
    ensures var raw := Records(Kept(g), RawCmds(g), date);
      var clean := Records(Kept(g), CleanCmds(g), date);
      && |raw| == |clean| == |Kept(g)|
      && forall k :: 0 <= k < |Kept(g)| ==>
        && raw[k] == SessionRecord(Kept(g)[k], Lookup(g.sessions, Kept(g)[k]), date)
        && clean[k] == SessionRecord(Kept(g)[k], Map(Lookup(g.sessions, Kept(g)[k]), NormalizeCommand), date)
  {
  }

  lemma AnalyzeIs(path: string, objs: seq<SessionObj>, g: Groups)
    requires Group(objs) == Ok(g)
    requires forall k :: 0 <= k < |g.order| ==> Lookup(g.sessions, g.order[k]) != []
    ensures var date := FileDate(path);
      Analyze(path, objs) == Ok(Report(date, Records(Kept(g), RawCmds(g), date), Records(Kept(g), CleanCmds(g), date), |g.sessions|, g.counter))
  {
    RecordsKept(g.order, RawCmds(g), FileDate(path));
    CleanKept(g, FileDate(path));
  }

  /** Filtering the records of the sessions `order`. */
  lemma {:induction false} RecordsKept(order: seq<string>, cmds: string -> seq<string>, date: string)
    ensures FilterShort(Lines(Records(order, cmds, date)), MIN_LENGTH) == Ok(Records(LongEnough(order, cmds), cmds, date))
  {
    var recOf := (sid: string) => SessionRecord(sid, cmds(sid), date);
    var recs := Records(order, cmds, date);
    FilterShortRecords(recs, MIN_LENGTH);
    FilterMap(order, recOf, (j: Json) => Long(j, MIN_LENGTH), (sid: string) => |cmds(sid)| >= MIN_LENGTH);
  }

  lemma CleanKept(g: Groups, date: string)
    requires forall k :: 0 <= k < |g.order| ==> Lookup(g.sessions, g.order[k]) != []
    ensures FilterShort(Lines(CleanRecords(g, date)), MIN_LENGTH) == Ok(Records(Kept(g), CleanCmds(g), date))
  {
    CleanAll(g);
    RecordsKept(g.order, CleanCmds(g), date);
    forall k | 0 <= k < |g.order| ensures |CleanCmds(g)(g.order[k])| == |RawCmds(g)(g.order[k])| {
      CleanCmdsLength(g, g.order[k]);
    }
    FilterSame(g.order, (sid: string) => |CleanCmds(g)(sid)| >= MIN_LENGTH, (sid: string) => |RawCmds(g)(sid)| >= MIN_LENGTH);
  }

  /** Normalising leaves every session some command, so the CLEAN file
      first gets every session. */
  lemma CleanAll(g: Groups)
    requires forall k :: 0 <= k < |g.order| ==> Lookup(g.sessions, g.order[k]) != []
    ensures Filter(g.order, (sid: string) => CleanCmds(g)(sid) != []) == g.order
  {
    forall k | 0 <= k < |g.order| ensures CleanCmds(g)(g.order[k]) != [] {
      CleanCmdsLength(g, g.order[k]);
    }
    FilterAll(g.order, (sid: string) => CleanCmds(g)(sid) != []);
  }

  lemma CleanCmdsLength(g: Groups, sid: string)
    ensures |CleanCmds(g)(sid)| == |RawCmds(g)(sid)|
  {
  }

  /** Every grouped session has a command. */
  lemma NoEmptySession(g: Groups, steps: seq<Step>)
    requires Summarizes(steps, g)
    requires forall sid :: sid in FirstSeen(steps) <==> CommandsIn(steps, sid) != []
    ensures forall k :: 0 <= k < |g.order| ==> Lookup(g.sessions, g.order[k]) != []
  {
  }

  /** `len(sessions)` is the length of the insertion order. */
  lemma SessionsCount(g: Groups, steps: seq<Step>)
    requires Summarizes(steps, g)
    requires Distinct(FirstSeen(steps))
    requires forall sid :: sid in FirstSeen(steps) <==> CommandsIn(steps, sid) != []
    ensures |g.sessions| == |g.order|
  {
    assert g.sessions.Keys == Elems(g.order);
    DistinctCard(g.order);
  }
}
