/** `merge_cowrie_datasets.py`: merging several Cowrie exports into one raw
    and one clean set of sessions. Every session id is tagged with the date
    in its file's name, so that equal ids from different days stay apart;
    the raw sessions keep each command stripped, the clean ones keep its
    normalised form when that is not empty, and both count every event. */
module CowrieMerge {
  import opened Outcomes
  import opened PyText
  import opened Seqs
  import opened JsonValue
  import opened CowrieNormalize
  import opened CowrieStream
  import opened CowrieClean
  import StringOrder

  /** The state of `merge_all` between events: the two `defaultdict(list)`
      maps with their keys in insertion order, and the two Counters. */
  datatype Merged = Merged(
    raw: map<string, seq<string>>, rawOrder: seq<string>, rawCounter: map<Json, nat>,
    clean: map<string, seq<string>>, cleanOrder: seq<string>, cleanCounter: map<Json, nat>)

  const EMPTY := Merged(map[], [], map[], map[], [], map[])

  /** What a command adds to its raw session: the command stripped. */
  function RawEntry(cmd: string): (r: Option<string>)
    ensures r.Some? && Stripped(r.value)
  {
    Some(Strip(cmd))
  }

  /** What a command adds to its clean session: its normalised form, unless
      that is empty. */
  function CleanEntry(cmd: string): (r: Option<string>)
    ensures r.Some? <==> NormalizeCommand(cmd) != []
    ensures r.Some? ==> r.value == NormalizeCommand(cmd) && SingleSpaced(r.value)
  {
    var c := NormalizeCommand(cmd);
    if c == [] then None else Some(c)
  }

  /** `sessions[sid].append(c)` on a `defaultdict(list)`, when there is a `c`. */
  function Append(sessions: map<string, seq<string>>, order: seq<string>, sid: string, entry: Option<string>)
    : (map<string, seq<string>>, seq<string>)
  {
    match entry
    case None => (sessions, order)
    case Some(c) => (sessions[sid := Lookup(sessions, sid) + [c]], if sid in sessions then order else order + [sid])
  }

  /** The body of the event loop. */
  function MergeEvent(m: Merged, sid: string, ev: Json): Result<Merged> {
    match EventId(ev)
    case Err(e) => Err(e)
    case Ok(id) =>
      var rawCounter := m.rawCounter[id := Tally(m.rawCounter, id) + 1];
      var cleanCounter := m.cleanCounter[id := Tally(m.cleanCounter, id) + 1];
      match CommandOf(ev)
      case None => Ok(m.(rawCounter := rawCounter, cleanCounter := cleanCounter))
      case Some(cmd) =>
        var raw := Append(m.raw, m.rawOrder, sid, RawEntry(cmd));
        var clean := Append(m.clean, m.cleanOrder, sid, CleanEntry(cmd));
        Ok(Merged(raw.0, raw.1, rawCounter, clean.0, clean.1, cleanCounter))
  }

  // ---------------------------------------------------------------------
  // The walk over the files
  // ---------------------------------------------------------------------

  /** Reading and decoding one file (`json.load`), which is not modelled:
      its result, or the exception it raises. */
  type Loader = string -> Result<seq<SessionObj>>

  /** `f"{date}_"`, put in front of every session id of the file. */
  function DatePrefix(path: string): string {
    FileDate(path) + "_"
  }

  function FileSteps(load: Loader, path: string): seq<Step> {
    match load(path)
    case Err(e) => [Fail(e)]
    case Ok(objs) => Stream(DatePrefix(path), objs)
  }

  function FilesSteps(load: Loader, files: seq<string>): seq<Step>
    decreases |files|
  {
    if files == [] then [] else FilesSteps(load, files[..|files| - 1]) + FileSteps(load, files[|files| - 1])
  }

  lemma {:induction false} FilesStepsAppend(load: Loader, a: seq<string>, b: seq<string>)
    ensures FilesSteps(load, a + b) == FilesSteps(load, a) + FilesSteps(load, b)
    decreases |b|
  {
    if b != [] {
      var c := b[..|b| - 1];
      assert (a + b)[..|a + b| - 1] == a + c;
      FilesStepsAppend(load, a, c);
    } else {
      assert a + b == a;
    }
  }

  lemma FilesStepsSplit(load: Loader, files: seq<string>, n: nat)
    requires n <= |files|
    ensures FilesSteps(load, files) == FilesSteps(load, files[..n]) + FilesSteps(load, files[n..])
  {
    SplitAt(files, n);
    FilesStepsAppend(load, files[..n], files[n..]);
  }

  /** One line of a merged sessions file: `{"session": sid, "commands": cmds}`. */
  function MergedRecord(sid: string, cmds: seq<string>): (r: Json)
    ensures r.JObj? && r.fields.Keys == {"session", "commands"} && r.fields["session"] == JStr(sid)
    ensures r.fields["commands"].JArr? && |r.fields["commands"].items| == |cmds|
    ensures forall k :: 0 <= k < |cmds| ==> r.fields["commands"].items[k] == JStr(cmds[k])
  {
    JObj(map["session" := JStr(sid), "commands" := JArr(seq(|cmds|, k requires 0 <= k < |cmds| => JStr(cmds[k])))])
  }

  /** The lines of a sessions file, in the map's insertion order. */
  function MergedRecords(sessions: map<string, seq<string>>, order: seq<string>): (r: seq<Json>)
    ensures |r| == |order| && forall k :: 0 <= k < |order| ==> r[k] == MergedRecord(order[k], Lookup(sessions, order[k]))
  {
    seq(|order|, k requires 0 <= k < |order| => MergedRecord(order[k], Lookup(sessions, order[k])))
  }

  /** What `merge_all` writes: the two sessions files and the figures of the
      two statistics files that are not floating point. */
  datatype MergeReport = MergeReport(
    sourceFiles: seq<string>,
    rawRecords: seq<Json>, rawSessions: nat, rawEvents: map<Json, nat>,
    cleanRecords: seq<Json>, cleanSessions: nat, cleanEvents: map<Json, nat>)

  function ReportOf(files: seq<string>, m: Merged): MergeReport {
    MergeReport(files, MergedRecords(m.raw, m.rawOrder), |m.raw|, m.rawCounter,
      MergedRecords(m.clean, m.cleanOrder), |m.clean|, m.cleanCounter)
  }

  /** `merge_all` over the paths the glob found: `None` when there are none. */
  function Merge(paths: seq<string>, load: Loader): Result<Option<MergeReport>> {
    var files := StringOrder.Sort(paths);
    if files == [] then Ok(None)
    else match Fold(EMPTY, FilesSteps(load, files), MergeEvent)
      case Err(e) => Err(e)
      case Ok(m) => Ok(Some(ReportOf(files, m)))
  }

  /** The loops over the session objects of one file. */
  method MergeFile(m: Merged, load: Loader, path: string) returns (r: Result<Merged>)
    ensures r == Fold(m, FileSteps(load, path), MergeEvent)
  {
    match load(path) {
      case Err(e) =>
        r := Err(e);
      case Ok(objs) =>
        r := FoldStream(m, DatePrefix(path), objs, MergeEvent);
    }
  }

  method MergeAll(paths: seq<string>, load: Loader) returns (r: Result<Option<MergeReport>>)
    ensures r == Merge(paths, load)
  {
    var files := StringOrder.Sort(paths);
    if files == [] {
      return Ok(None);
    }
    var m := EMPTY;
    var i := 0;
    while i < |files|
      invariant 0 <= i <= |files|
      invariant Fold(EMPTY, FilesSteps(load, files[..i]), MergeEvent) == Ok(m)
    {
      var next := MergeFile(m, load, files[i]);
      FilesNext(EMPTY, load, files, i, m, MergeEvent);
      if next.Err? {
        FilesStop(EMPTY, load, files, i + 1, MergeEvent);
        return Err(next.error);
      }
      m := next.value;
      i := i + 1;
    }
    assert files[..i] == files;
    return Ok(Some(ReportOf(files, m)));
  }

  /** One file further: the fold over the first `i + 1` files is that over
      file `i` from where the first `i` left off. */
  lemma FilesNext<S>(s0: S, load: Loader, files: seq<string>, i: nat, s: S, f: (S, string, Json) -> Result<S>)
    requires i < |files| && Fold(s0, FilesSteps(load, files[..i]), f) == Ok(s)
    ensures Fold(s0, FilesSteps(load, files[..i + 1]), f) == Fold(s, FileSteps(load, files[i]), f)
  {
    assert files[..i + 1][..i] == files[..i];
    assert FilesSteps(load, files[..i + 1]) == FilesSteps(load, files[..i]) + FileSteps(load, files[i]);
    FoldAppend(s0, FilesSteps(load, files[..i]), FileSteps(load, files[i]), f);
  }

  /** An exception in the first `n` files is the exception of the merge. */
  lemma FilesStop<S>(s0: S, load: Loader, files: seq<string>, n: nat, f: (S, string, Json) -> Result<S>)
    requires n <= |files| && Fold(s0, FilesSteps(load, files[..n]), f).Err?
    ensures Fold(s0, FilesSteps(load, files), f) == Fold(s0, FilesSteps(load, files[..n]), f)
  {
    FilesStepsSplit(load, files, n);
    FoldStops(s0, FilesSteps(load, files[..n]), FilesSteps(load, files[n..]), f);
  }

  // ---------------------------------------------------------------------
  // What the merge computes, stated over the stream of events
  // ---------------------------------------------------------------------

  /** What the commands of session `sid` contribute, in stream order. */
  function Collected(steps: seq<Step>, sid: string, entry: string -> Option<string>): seq<string>
    decreases |steps|
  {
    if steps == [] then []
    else
      var last := steps[|steps| - 1];
      var before := Collected(steps[..|steps| - 1], sid, entry);
      if last.Ev? && last.sid == sid && CommandOf(last.ev).Some? && entry(CommandOf(last.ev).value).Some?
      then before + [entry(CommandOf(last.ev).value).value]
      else before
  }

  /** Session ids in the order of their first contribution. */
  function FirstOf(steps: seq<Step>, entry: string -> Option<string>): seq<string>
    decreases |steps|
  {
    if steps == [] then []
    else
      var last := steps[|steps| - 1];
      var init := steps[..|steps| - 1];
      var before := FirstOf(init, entry);
      if last.Ev? && CommandOf(last.ev).Some? && entry(CommandOf(last.ev).value).Some? && Collected(init, last.sid, entry) == []
      then before + [last.sid]
      else before
  }

  ghost predicate Holds(steps: seq<Step>, sessions: map<string, seq<string>>, order: seq<string>, entry: string -> Option<string>) {
    && (forall sid :: Lookup(sessions, sid) == Collected(steps, sid, entry))
    && (forall sid :: sid in sessions <==> Collected(steps, sid, entry) != [])
    && order == FirstOf(steps, entry)
  }

  ghost predicate Summarizes(steps: seq<Step>, m: Merged) {
    && (forall e :: Tally(m.rawCounter, e) == TallyIn(steps, e))
    && m.cleanCounter == m.rawCounter
    && Holds(steps, m.raw, m.rawOrder, RawEntry)
    && Holds(steps, m.clean, m.cleanOrder, CleanEntry)
  }

  /** Whatever completes without an exception: both counters hold, for every
      event id, the number of events carrying it, command or not, and are
      equal; the raw sessions hold the stripped commands of each merged id
      and the clean ones its non-empty normalised commands, in event order;
      a session exists exactly when it has something, and the maps' orders
      are the orders of first contributions. */
  lemma {:induction false} MergeSummary(steps: seq<Step>, m: Merged)
    requires Fold(EMPTY, steps, MergeEvent) == Ok(m)
    ensures Summarizes(steps, m)
    decreases |steps|
  {
    if steps != [] {
      var init := steps[..|steps| - 1];
      var last := steps[|steps| - 1];
      FoldLast(EMPTY, steps, MergeEvent, m);
      var r0 := Fold(EMPTY, init, MergeEvent);
      MergeSummary(init, r0.value);
      MergeStep(init, last, r0.value, m);
    }
  }

  lemma MergeStep(init: seq<Step>, last: Step, h: Merged, m: Merged)
    requires Summarizes(init, h) && last.Ev? && MergeEvent(h, last.sid, last.ev) == Ok(m)
    ensures Summarizes(init + [last], m)
  {
    MergeEventShape(h, last.sid, last.ev, m);
    TallyStep(init, last, h.rawCounter, m.rawCounter);
    match CommandOf(last.ev) {
      case None =>
        HoldsUnchanged(init, last, h.raw, h.rawOrder, RawEntry);
        HoldsUnchanged(init, last, h.clean, h.cleanOrder, CleanEntry);
      case Some(cmd) =>
        HoldsStep(init, last, h.raw, h.rawOrder, RawEntry, cmd);
        HoldsStep(init, last, h.clean, h.cleanOrder, CleanEntry, cmd);
    }
  }

  /** What one successful event does to the merge state. */
  lemma MergeEventShape(h: Merged, sid: string, ev: Json, m: Merged)
    requires MergeEvent(h, sid, ev) == Ok(m)
    ensures m.rawCounter == h.rawCounter[IdOf(ev) := Tally(h.rawCounter, IdOf(ev)) + 1]
    ensures m.cleanCounter == h.cleanCounter[IdOf(ev) := Tally(h.cleanCounter, IdOf(ev)) + 1]
    ensures CommandOf(ev).None? ==> m.raw == h.raw && m.rawOrder == h.rawOrder && m.clean == h.clean && m.cleanOrder == h.cleanOrder
    ensures CommandOf(ev).Some? ==>
      && (m.raw, m.rawOrder) == Append(h.raw, h.rawOrder, sid, RawEntry(CommandOf(ev).value))
      && (m.clean, m.cleanOrder) == Append(h.clean, h.cleanOrder, sid, CleanEntry(CommandOf(ev).value))
  {
    assert EventId(ev) == Ok(IdOf(ev));
    match CommandOf(ev) {
      case None =>
      case Some(cmd) =>
    }
  }

  lemma HoldsUnchanged(init: seq<Step>, last: Step, sessions: map<string, seq<string>>, order: seq<string>,
                       entry: string -> Option<string>)
    requires Holds(init, sessions, order, entry) && last.Ev? && CommandOf(last.ev).None?
    ensures Holds(init + [last], sessions, order, entry)
  {
    var steps := init + [last];
    assert steps[..|steps| - 1] == init;
  }

  lemma HoldsStep(init: seq<Step>, last: Step, sessions: map<string, seq<string>>, order: seq<string>,
                  entry: string -> Option<string>, cmd: string)
    requires Holds(init, sessions, order, entry) && last.Ev? && CommandOf(last.ev) == Some(cmd)
    ensures var next := Append(sessions, order, last.sid, entry(cmd));
      Holds(init + [last], next.0, next.1, entry)
  {
    var steps := init + [last];
    assert steps[..|steps| - 1] == init;
    var next := Append(sessions, order, last.sid, entry(cmd));
    forall sid ensures Lookup(next.0, sid) == Collected(steps, sid, entry) {
    }
  }

  /** Each clean session is no longer than the raw session of the same id. */
  lemma {:induction false} CleanNoLonger(steps: seq<Step>, sid: string)
    ensures |Collected(steps, sid, CleanEntry)| <= |Collected(steps, sid, RawEntry)|
    decreases |steps|
  {
    if steps != [] {
      CleanNoLonger(steps[..|steps| - 1], sid);
    }
  }

  /** The insertion order lists each session once, and only sessions. */
  lemma {:induction false} FirstOfKeys(steps: seq<Step>, entry: string -> Option<string>)
    ensures Distinct(FirstOf(steps, entry))
    ensures forall sid :: sid in FirstOf(steps, entry) <==> Collected(steps, sid, entry) != []
    decreases |steps|
  {
    if steps != [] {
      FirstOfKeys(steps[..|steps| - 1], entry);
    }
  }

  /** A session with a contribution has an event in the stream. */
  lemma {:induction false} CollectedFrom(steps: seq<Step>, sid: string, entry: string -> Option<string>)
    requires Collected(steps, sid, entry) != []
    ensures exists k :: 0 <= k < |steps| && steps[k].Ev? && steps[k].sid == sid
    decreases |steps|
  {
    var init := steps[..|steps| - 1];
    if Collected(init, sid, entry) != [] {
      CollectedFrom(init, sid, entry);
      var k :| 0 <= k < |init| && init[k].Ev? && init[k].sid == sid;
      assert steps[k] == init[k];
    } else {
      assert steps[|steps| - 1].Ev? && steps[|steps| - 1].sid == sid;
    }
  }

  /** Every event read from `files` carries, in front of its session id,
      the date of the file it came from. */
  ghost predicate Dated(load: Loader, files: seq<string>) {
    forall k :: 0 <= k < |FilesSteps(load, files)| && FilesSteps(load, files)[k].Ev? ==>
      exists i :: 0 <= i < |files| && DatePrefix(files[i]) <= FilesSteps(load, files)[k].sid
  }

  lemma {:induction false} FilesDated(load: Loader, files: seq<string>)
    ensures Dated(load, files)
    decreases |files|
  {
    if files != [] {
      var init := files[..|files| - 1];
      FilesDated(load, init);
      assert files == init + [files[|files| - 1]];
      FilesDatedStep(load, init, files[|files| - 1]);
    }
  }

  lemma FilesDatedStep(load: Loader, init: seq<string>, path: string)
    requires Dated(load, init)
    ensures Dated(load, init + [path])
  {
    var files := init + [path];
    assert files[..|files| - 1] == init;
    forall k | 0 <= k < |FilesSteps(load, files)| && FilesSteps(load, files)[k].Ev?
      ensures exists i :: 0 <= i < |files| && DatePrefix(files[i]) <= FilesSteps(load, files)[k].sid
    {
      StepDated(load, init, path, k);
    }
  }

  lemma StepDated(load: Loader, init: seq<string>, path: string, k: nat)
    requires Dated(load, init)
    requires (init + [path])[..|init|] == init
    requires k < |FilesSteps(load, init + [path])| && FilesSteps(load, init + [path])[k].Ev?
    ensures exists i :: 0 <= i < |init| + 1 && DatePrefix((init + [path])[i]) <= FilesSteps(load, init + [path])[k].sid
  {
    var a := FilesSteps(load, init);
    if k < |a| {
      var i :| 0 <= i < |init| && DatePrefix(init[i]) <= a[k].sid;
      assert (init + [path])[i] == init[i];
    } else {
      FileDated(load, path, k - |a|);
      assert (init + [path])[|init|] == path;
    }
  }

  lemma FileDated(load: Loader, path: string, k: nat)
    requires k < |FileSteps(load, path)| && FileSteps(load, path)[k].Ev?
    ensures DatePrefix(path) <= FileSteps(load, path)[k].sid
  {
    StreamPrefixed(DatePrefix(path), load(path).value);
  }

  /** `len(sessions)` is the length of the insertion order. */
  lemma KeysCount(steps: seq<Step>, sessions: map<string, seq<string>>, order: seq<string>, entry: string -> Option<string>)
    requires Holds(steps, sessions, order, entry)
    ensures |sessions| == |order|
  {
    FirstOfKeys(steps, entry);
    assert sessions.Keys == Elems(order);
    DistinctCard(order);
  }

  /** Every clean session has a raw session of the same id, at least as long. */
  lemma CleanWithinRaw(steps: seq<Step>, m: Merged)
    requires Summarizes(steps, m)
    ensures m.clean.Keys <= m.raw.Keys
    ensures forall sid :: |Lookup(m.clean, sid)| <= |Lookup(m.raw, sid)|
    ensures |m.clean| <= |m.raw|
  {
    SessionsWithin(steps, m.raw, m.rawOrder, m.clean, m.cleanOrder);
    SubsetCard(m.clean.Keys, m.raw.Keys);
  }

  lemma SessionsWithin(steps: seq<Step>, raw: map<string, seq<string>>, rawOrder: seq<string>,
                       clean: map<string, seq<string>>, cleanOrder: seq<string>)
    requires Holds(steps, raw, rawOrder, RawEntry) && Holds(steps, clean, cleanOrder, CleanEntry)
    ensures forall sid :: |Lookup(clean, sid)| <= |Lookup(raw, sid)|
    ensures clean.Keys <= raw.Keys
  {
    forall sid ensures |Lookup(clean, sid)| <= |Lookup(raw, sid)| {
      CleanNoLonger(steps, sid);
    }
  }

  lemma {:induction false} SubsetCard<T>(a: set<T>, b: set<T>)
    requires a <= b
    ensures |a| <= |b|
  {
    if a != {} {
      var x :| x in a;
      SubsetCard(a - {x}, b - {x});
    }
  }

  /** `merge_all` stops early exactly when the glob finds no file. */
  lemma MergeNone(paths: seq<string>, load: Loader)
    ensures Merge(paths, load) == Ok(None) <==> paths == []
  {
    StringOrder.SortProps(paths);
    if paths != [] {
      assert paths[0] in multiset(StringOrder.Sort(paths));
    }
  }

  /** What a completed merge reports. The files are the paths found, in
      sorted order. Both session files list, in the order of first
      contribution, each merged id with what it collected: the stripped
      commands in the raw file, the non-empty normalised ones in the clean
      file. Every merged id starts with the date of a file and an
      underscore. Each file's session count is its number of records, the
      clean count is at most the raw one, and both event tables count every
      event by its id. */
  lemma MergeFacts(paths: seq<string>, load: Loader, rep: MergeReport)
    requires Merge(paths, load) == Ok(Some(rep))
    ensures paths != [] && StringOrder.Sorted(rep.sourceFiles) && multiset(rep.sourceFiles) == multiset(paths)
    ensures var steps := FilesSteps(load, rep.sourceFiles);
      && rep.rawSessions == |rep.rawRecords| == |FirstOf(steps, RawEntry)|
      && rep.cleanSessions == |rep.cleanRecords| == |FirstOf(steps, CleanEntry)|
      && (forall k :: 0 <= k < |rep.rawRecords| ==>
            var sid := FirstOf(steps, RawEntry)[k];
            rep.rawRecords[k] == MergedRecord(sid, Collected(steps, sid, RawEntry)))
      && (forall k :: 0 <= k < |rep.cleanRecords| ==>
            var sid := FirstOf(steps, CleanEntry)[k];
            rep.cleanRecords[k] == MergedRecord(sid, Collected(steps, sid, CleanEntry)))
      && rep.cleanSessions <= rep.rawSessions
      && rep.rawEvents == rep.cleanEvents
      && forall e :: Tally(rep.rawEvents, e) == TallyIn(steps, e)
  {
    MergeNone(paths, load);
    StringOrder.SortProps(paths);
    var files := StringOrder.Sort(paths);
    var steps := FilesSteps(load, files);
    var m := Fold(EMPTY, steps, MergeEvent).value;
    MergeSummary(steps, m);
    KeysCount(steps, m.raw, m.rawOrder, RawEntry);
    KeysCount(steps, m.clean, m.cleanOrder, CleanEntry);
    CleanWithinRaw(steps, m);
  }

  /** Every merged id, raw or clean, starts with `<date>_` for one of the files. */
  lemma MergedIdsDated(paths: seq<string>, load: Loader, rep: MergeReport)
    requires Merge(paths, load) == Ok(Some(rep))
    ensures var steps := FilesSteps(load, rep.sourceFiles);
      forall sid :: sid in FirstOf(steps, RawEntry) || sid in FirstOf(steps, CleanEntry) ==>
        exists i :: 0 <= i < |rep.sourceFiles| && DatePrefix(rep.sourceFiles[i]) <= sid
  {
    var steps := FilesSteps(load, rep.sourceFiles);
    FirstOfKeys(steps, RawEntry);
    FirstOfKeys(steps, CleanEntry);
    FilesDated(load, rep.sourceFiles);
    forall sid | sid in FirstOf(steps, RawEntry) || sid in FirstOf(steps, CleanEntry)
      ensures exists i :: 0 <= i < |rep.sourceFiles| && DatePrefix(rep.sourceFiles[i]) <= sid
    {
      if sid in FirstOf(steps, RawEntry) {
        CollectedFrom(steps, sid, RawEntry);
      } else {
        CollectedFrom(steps, sid, CleanEntry);
      }
      var k :| 0 <= k < |steps| && steps[k].Ev? && steps[k].sid == sid;
    }
  }
}
