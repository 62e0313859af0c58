/** The speculative branch engine of the Ansible-deployed honeypot defender:
    for every logged command it commits the matching branch, extends the
    session history, asks the oracle for the next commands and materialises one
    real decoy file per prediction at the descriptor's `intended_path`. */
module HoneypotDefender {
  import opened Outcomes
  import opened PyText
  import opened PyPath
  import opened Seqs
  import opened JsonStore
  import opened HoneypotLog

  const PRED_K: nat := 5
  const CONTEXT_LEN: nat := 5
  const REAL_FS_BASE := "/home/user"
  const DEFAULT_PREDICTIONS := ["ls", "whoami", "pwd", "cat /etc/os-release", "exit"]

  /** One entry of a descriptor's `artifacts` list. */
  datatype ArtifactSpec = ArtifactSpec(path: Option<string>, content: Option<string>)

  /** A defence descriptor: the JSON object the generator returns, reduced to
      the keys the defender reads (an absent key is `None`). */
  datatype Descriptor = Descriptor(
    description: Option<string>,
    intendedPath: Option<string>,
    artifacts: Option<seq<ArtifactSpec>>)

  /** The defence index document; `byCommand` is its `by_command` object. */
  datatype IndexDoc = IndexDoc(byCommand: Option<map<string, Descriptor>>)

  /** A session's branch set: the predictions and the real paths written for each. */
  datatype Branches = Branches(predicted: seq<string>, artifacts: map<string, seq<string>>)

  /** What `active_artifacts` records for a real decoy file. */
  datatype ArtifactMeta = ArtifactMeta(command: string, session: string, timestamp: int)

  /** A descriptor is truthy when it has at least one key. */
  predicate Present(d: Descriptor) {
    d.description.Some? || d.intendedPath.Some? || d.artifacts.Some?
  }

  /** `make_session_key`. */
  function MakeSessionKey(e: LogEntry): string {
    SessionKey(e, "default", "unknown_ip")
  }

  /** `predict_next_commands` for a session whose history is `hist`; `oracle`
      stands for the retrieval, the prompt and the model call on the last
      `CONTEXT_LEN` commands, and returns the raw model text. */
  function Predictions(hist: seq<string>, oracle: seq<string> -> string): seq<string> {
    if hist == [] then DEFAULT_PREDICTIONS
    else
      var raw := oracle(Last(hist, CONTEXT_LEN));
      if raw == "" then DEFAULT_PREDICTIONS else Take(NonBlankLines(raw), PRED_K)
  }

  /** At most `PRED_K` predictions, each a stripped non-empty line of the
      response; the default list when there is no history or no response. */
  lemma PredictionsShape(hist: seq<string>, oracle: seq<string> -> string)
    ensures |Predictions(hist, oracle)| <= PRED_K
    ensures forall k :: 0 <= k < |Predictions(hist, oracle)| ==>
      Predictions(hist, oracle)[k] != "" && Strip(Predictions(hist, oracle)[k]) == Predictions(hist, oracle)[k]
    ensures hist == [] ==> Predictions(hist, oracle) == DEFAULT_PREDICTIONS
    ensures hist != [] && oracle(Last(hist, CONTEXT_LEN)) == "" ==> Predictions(hist, oracle) == DEFAULT_PREDICTIONS
    ensures hist != [] && oracle(Last(hist, CONTEXT_LEN)) != "" ==>
      Predictions(hist, oracle) == Take(NonBlankLines(oracle(Last(hist, CONTEXT_LEN))), PRED_K)
  {
    if hist == [] || oracle(Last(hist, CONTEXT_LEN)) == "" {
      DefaultsStripped();
    } else {
      var lines := NonBlankLines(oracle(Last(hist, CONTEXT_LEN)));
      var r := Take(lines, PRED_K);
      forall k | 0 <= k < |r| ensures r[k] != "" && Strip(r[k]) == r[k] {
        assert r[k] == lines[k];
        StripOfStripped(lines[k]);
      }
    }
  }

  lemma DefaultsStripped()
    ensures forall k :: 0 <= k < |DEFAULT_PREDICTIONS| ==>
      DEFAULT_PREDICTIONS[k] != "" && Strip(DEFAULT_PREDICTIONS[k]) == DEFAULT_PREDICTIONS[k]
  {
    forall k | 0 <= k < |DEFAULT_PREDICTIONS|
      ensures DEFAULT_PREDICTIONS[k] != "" && Strip(DEFAULT_PREDICTIONS[k]) == DEFAULT_PREDICTIONS[k]
    {
      StripOfStripped(DEFAULT_PREDICTIONS[k]);
    }
  }

  /** Unlike the other defenders, a non-empty response made only of white
      space yields no prediction at all. */
  lemma BlankResponseGivesNoPredictions(hist: seq<string>, oracle: seq<string> -> string)
    requires hist != [] && oracle(Last(hist, CONTEXT_LEN)) != "" && AllSpace(oracle(Last(hist, CONTEXT_LEN)))
    ensures Predictions(hist, oracle) == []
  {
    NonBlankLinesOfBlank(oracle(Last(hist, CONTEXT_LEN)));
  }

  function Underscored(command: string): string {
    Replace(command, " ", "_")
  }

  /** The one artifact a descriptor falls back to. */
  function FallbackArtifact(command: string): ArtifactSpec {
    ArtifactSpec(Some(Underscored(command) + "_fallback.txt"), Some(""))
  }

  /** The normalisation of one parsed artifact: its path reduced to a basename. */
  function NormalizeArtifact(a: ArtifactSpec): ArtifactSpec {
    ArtifactSpec(Some(BaseName(GetOr(a.path, "artifact.txt"))), Some(GetOr(a.content, "")))
  }

  /** `create_defense_for_predicted_command` after the model call: `raw` is the
      model's text and `decode` is `json.loads` (`None` where it raises). */
  function CreateDefense(command: string, raw: string, decode: string -> Option<Descriptor>): Descriptor {
    match decode(raw)
    case None =>
      Descriptor(
        Some("Fallback defense for predicted command: " + command),
        Some("/var/log/deception/" + Underscored(command) + ".log"),
        Some([FallbackArtifact(command)]))
    case Some(p) =>
      var path :=
        if p.intendedPath.Some? && p.intendedPath.value != "" then p.intendedPath.value
        else REAL_FS_BASE + "/" + Replace(Underscored(command), "/", "_") + ".txt";
      var arts := if p.artifacts.Some? && p.artifacts.value != [] then p.artifacts.value else [FallbackArtifact(command)];
      Descriptor(p.description, Some(path), Some(Map(arts, NormalizeArtifact)))
  }

  /** Every descriptor the defender creates has a non-empty `intended_path` and
      at least one artifact; a parsed one keeps the model's non-empty
      `intended_path`, keeps one artifact per parsed artifact and reduces every
      artifact path to a base name. */
  lemma CreateDefenseFixed(command: string, raw: string, decode: string -> Option<Descriptor>)
    ensures var d := CreateDefense(command, raw, decode);
      Present(d) && d.intendedPath.Some? && d.intendedPath.value != "" && d.artifacts.Some? && d.artifacts.value != []
    ensures decode(raw).None? ==> CreateDefense(command, raw, decode).artifacts.value == [FallbackArtifact(command)]
    ensures decode(raw).Some? ==>
      var p := decode(raw).value;
      var d := CreateDefense(command, raw, decode);
      (p.intendedPath.Some? && p.intendedPath.value != "" ==> d.intendedPath == p.intendedPath)
      && (p.artifacts.Some? && p.artifacts.value != [] ==> |d.artifacts.value| == |p.artifacts.value|)
      && forall k :: 0 <= k < |d.artifacts.value| ==>
           d.artifacts.value[k].path.Some? && '/' !in d.artifacts.value[k].path.value && d.artifacts.value[k].content.Some?
  {
  }

  /** The content written for a descriptor: that of its first artifact. */
  function FirstContent(d: Descriptor): string
    requires d.artifacts.Some? && d.artifacts.value != []
  {
    GetOr(d.artifacts.value[0].content, "")
  }

  /** The paths `materialize_defense_artifacts` returns; `writable` says
      whether `sudo tee` succeeds on a path. */
  function MaterializedPaths(d: Descriptor, writable: string -> bool): seq<string> {
    if d.intendedPath.None? || d.intendedPath.value == "" then []
    else if d.artifacts.None? || d.artifacts.value == [] then []
    else if writable(d.intendedPath.value) then [d.intendedPath.value]
    else []
  }

  /** At most one path is materialised, and it is the `intended_path`; a
      descriptor without `intended_path` or without artifacts yields none. */
  lemma MaterializedAtMostIntended(d: Descriptor, writable: string -> bool)
    ensures |MaterializedPaths(d, writable)| <= 1
    ensures MaterializedPaths(d, writable) != [] ==>
      d.intendedPath.Some? && MaterializedPaths(d, writable) == [d.intendedPath.value] && writable(d.intendedPath.value)
    ensures (d.intendedPath.None? || d.intendedPath.value == "" || d.artifacts.None? || d.artifacts.value == [])
      ==> MaterializedPaths(d, writable) == []
  {
  }

  /** A created descriptor is written exactly when its intended path is writable. */
  lemma CreatedDefenseMaterializes(command: string, raw: string, decode: string -> Option<Descriptor>, writable: string -> bool)
    ensures var d := CreateDefense(command, raw, decode);
      MaterializedPaths(d, writable) == (if writable(d.intendedPath.value) then [d.intendedPath.value] else [])
  {
    CreateDefenseFixed(command, raw, decode);
  }

  /** The paths listed under the given commands of a branch set. */
  function PathsUnder(arts: map<string, seq<string>>, cmds: set<string>): set<string> {
    set c, p | c in cmds && c in arts && p in arts[c] && p != "" :: p
  }

  /** The paths a commit of `actual` discards: those of every other prediction. */
  function StalePaths(b: Branches, actual: string): set<string> {
    PathsUnder(b.artifacts, b.artifacts.Keys - {actual})
  }

  function ArtifactsOf(arts: map<string, seq<string>>, c: string): seq<string> {
    if c in arts then arts[c] else []
  }

  /** A lookup in the `by_command` object. */
  function Lookup(ix: map<string, Descriptor>, c: string): Option<Descriptor> {
    if c in ix then Some(ix[c]) else None
  }

  /** `c` has a truthy descriptor in the index: the cache-hit test. */
  predicate CachedIn(ix: map<string, Descriptor>, c: string) {
    c in ix && Present(ix[c])
  }

  /** The index entry of `c` exists and `paths` is what it materialises. */
  predicate Defended(ix: map<string, Descriptor>, c: string, paths: seq<string>, writable: string -> bool) {
    CachedIn(ix, c) && paths == MaterializedPaths(ix[c], writable)
  }

  /** From `ix0` to `ix1` only the commands of `cmds` that were not cache hits
      may have gained or replaced an entry. */
  ghost predicate IndexGrowth(ix0: map<string, Descriptor>, ix1: map<string, Descriptor>, cmds: set<string>) {
    forall c :: c !in cmds || CachedIn(ix0, c) ==> Lookup(ix1, c) == Lookup(ix0, c)
  }

  /** One more prediction handled: its entry is kept if it was a hit and
      otherwise (re)written. */
  lemma IndexGrowthStep(ix0: map<string, Descriptor>, ix1: map<string, Descriptor>, ix2: map<string, Descriptor>,
                        cmds: set<string>, cmd: string)
    requires IndexGrowth(ix0, ix1, cmds)
    requires cmd in ix2 && ix2 == ix1[cmd := ix2[cmd]]
    requires CachedIn(ix1, cmd) ==> ix2 == ix1
    ensures IndexGrowth(ix0, ix2, cmds + {cmd})
  {
    forall c | c !in cmds + {cmd} || CachedIn(ix0, c)
      ensures Lookup(ix2, c) == Lookup(ix0, c)
    {
      if c == cmd {
        assert Lookup(ix1, c) == Lookup(ix0, c);
      }
    }
  }

  /** Handling one more prediction keeps every earlier branch defended. */
  lemma DefendedStep(ix1: map<string, Descriptor>, ix2: map<string, Descriptor>, arts: map<string, seq<string>>,
                     cmd: string, paths: seq<string>, arts2: map<string, seq<string>>, writable: string -> bool)
    requires forall c :: c in arts ==> Defended(ix1, c, arts[c], writable)
    requires Defended(ix2, cmd, paths, writable) && ix2 == ix1[cmd := ix2[cmd]]
    requires arts2 == arts[cmd := paths]
    ensures forall c :: c in arts2 ==> Defended(ix2, c, arts2[c], writable)
  {
  }

  /** The registry after `paths` (at most one) were recorded with `meta`. */
  function Recorded(reg: map<string, ArtifactMeta>, paths: seq<string>, meta: ArtifactMeta): map<string, ArtifactMeta> {
    if paths == [] then reg else reg[paths[0] := meta]
  }

  /** Every registry entry of `reg1` is either unchanged from `reg0` or was
      recorded for session `sk` and one of `predictions`. */
  ghost predicate OnlyBranchChanges(reg0: map<string, ArtifactMeta>, reg1: map<string, ArtifactMeta>,
                                    sk: string, predictions: seq<string>) {
    forall p :: p in reg1 ==>
      (p in reg0 && reg1[p] == reg0[p]) || (reg1[p].session == sk && reg1[p].command in predictions)
  }

  lemma OnlyBranchChangesStep(reg0: map<string, ArtifactMeta>, reg1: map<string, ArtifactMeta>,
                              sk: string, predictions: seq<string>, paths: seq<string>, meta: ArtifactMeta)
    requires OnlyBranchChanges(reg0, reg1, sk, predictions)
    requires meta.session == sk && meta.command in predictions
    ensures OnlyBranchChanges(reg0, Recorded(reg1, paths, meta), sk, predictions)
  {
  }

  lemma KeysGrow(a0: set<string>, f0: set<string>, a1: set<string>, f1: set<string>, added: set<string>, more: set<string>)
    requires a1 == a0 + added && f1 == f0 + added
    ensures a1 + more == a0 + (added + more) && f1 + more == f0 + (added + more)
  {
  }

  /** The descriptor the prediction loop uses for `c` when the index was `ix`
      before the loop: the truthy indexed one, otherwise a generated one. */
  function DefenseFor(ix: map<string, Descriptor>, c: string, generator: string -> string,
                      decode: string -> Option<Descriptor>): Descriptor {
    if CachedIn(ix, c) then ix[c] else CreateDefense(c, generator(c), decode)
  }

  /** The disk after one descriptor's decoy was written. */
  function WriteDecoy(fs: map<string, string>, d: Descriptor, writable: string -> bool): map<string, string> {
    var paths := MaterializedPaths(d, writable);
    if paths == [] then fs else fs[paths[0] := FirstContent(d)]
  }

  /** The descriptors the loop started on `ix` uses for `cmds`, in order. */
  function Chosen(ix: map<string, Descriptor>, cmds: seq<string>, generator: string -> string,
                  decode: string -> Option<Descriptor>): (r: seq<Descriptor>)
    ensures |r| == |cmds|
    decreases |cmds|
  {
    if cmds == [] then []
    else Chosen(ix, cmds[..|cmds| - 1], generator, decode) + [DefenseFor(ix, cmds[|cmds| - 1], generator, decode)]
  }

  /** The descriptor at each position is the one chosen for its command. */
  lemma {:induction false} ChosenAt(ix: map<string, Descriptor>, cmds: seq<string>, generator: string -> string,
                                    decode: string -> Option<Descriptor>)
    ensures forall k :: 0 <= k < |cmds| ==> Chosen(ix, cmds, generator, decode)[k] == DefenseFor(ix, cmds[k], generator, decode)
    decreases |cmds|
  {
    if cmds != [] {
      var init := cmds[..|cmds| - 1];
      ChosenAt(ix, init, generator, decode);
      assert forall k :: 0 <= k < |init| ==> init[k] == cmds[k];
    }
  }

  /** The disk after the decoy of each descriptor of `ds` was written in turn. */
  function WriteDecoys(fs: map<string, string>, ds: seq<Descriptor>, writable: string -> bool): map<string, string>
    decreases |ds|
  {
    if ds == [] then fs else WriteDecoy(WriteDecoys(fs, ds[..|ds| - 1], writable), ds[|ds| - 1], writable)
  }

  /** The registry after the decoy of each descriptor of `ds` was recorded for
      the command at the same position of `cmds`. */
  function RecordDecoys(reg: map<string, ArtifactMeta>, sk: string, cmds: seq<string>, ds: seq<Descriptor>,
                        writable: string -> bool, now: int): map<string, ArtifactMeta>
    requires |cmds| == |ds|
    decreases |ds|
  {
    if ds == [] then reg
    else
      Recorded(RecordDecoys(reg, sk, cmds[..|cmds| - 1], ds[..|ds| - 1], writable, now),
               MaterializedPaths(ds[|ds| - 1], writable), ArtifactMeta(cmds[|cmds| - 1], sk, now))
  }

  /** The index after the prediction loop of `plan_and_apply_defenses` has
      handled `cmds` in order, starting from `ix`. */
  function PlanIndexOf(ix: map<string, Descriptor>, cmds: seq<string>, generator: string -> string,
                       decode: string -> Option<Descriptor>): map<string, Descriptor>
  {
    Assigned(ix, cmds, Chosen(ix, cmds, generator, decode))
  }

  /** The disk after the prediction loop over `cmds`: each prediction's decoy
      is written in turn, so the last prediction writing a path decides its
      content. */
  function PlanFiles(ix: map<string, Descriptor>, fs: map<string, string>, cmds: seq<string>,
                     generator: string -> string, decode: string -> Option<Descriptor>,
                     writable: string -> bool): map<string, string>
  {
    WriteDecoys(fs, Chosen(ix, cmds, generator, decode), writable)
  }

  /** The registry after the loop: each written decoy recorded for its prediction. */
  function PlanRegistry(ix: map<string, Descriptor>, reg: map<string, ArtifactMeta>, sk: string, cmds: seq<string>,
                        generator: string -> string, decode: string -> Option<Descriptor>,
                        writable: string -> bool, now: int): map<string, ArtifactMeta>
  {
    RecordDecoys(reg, sk, cmds, Chosen(ix, cmds, generator, decode), writable, now)
  }

  /** Index, disk and registry went from the first three to the last three
      as the prediction loop over `cmds` says. */
  ghost predicate Applied(ix0: map<string, Descriptor>, fs0: map<string, string>, reg0: map<string, ArtifactMeta>,
                          ix1: map<string, Descriptor>, fs1: map<string, string>, reg1: map<string, ArtifactMeta>,
                          sk: string, cmds: seq<string>, generator: string -> string,
                          decode: string -> Option<Descriptor>, writable: string -> bool, now: int)
  {
    ix1 == PlanIndexOf(ix0, cmds, generator, decode)
    && fs1 == PlanFiles(ix0, fs0, cmds, generator, decode, writable)
    && reg1 == PlanRegistry(ix0, reg0, sk, cmds, generator, decode, writable, now)
  }

  /** After the loop every prediction is indexed with a truthy descriptor: a
      cache hit keeps its entry, a miss gets the generated descriptor, and no
      other command's entry changes. */
  lemma PlanIndex(ix: map<string, Descriptor>, cmds: seq<string>, generator: string -> string,
                  decode: string -> Option<Descriptor>)
    ensures var r := PlanIndexOf(ix, cmds, generator, decode);
      r.Keys == ix.Keys + Elems(cmds)
      && (forall c :: c in cmds ==> r[c] == DefenseFor(ix, c, generator, decode) && CachedIn(r, c))
      && (forall c :: c in cmds && !CachedIn(ix, c) ==> r[c] == CreateDefense(c, generator(c), decode))
      && IndexGrowth(ix, r, Elems(cmds))
  {
    var ds := Chosen(ix, cmds, generator, decode);
    ChosenAt(ix, cmds, generator, decode);
    AssignedEntries(ix, cmds, ds);
    var r := PlanIndexOf(ix, cmds, generator, decode);
    forall c | c in cmds
      ensures r[c] == DefenseFor(ix, c, generator, decode) && CachedIn(r, c)
    {
      var k :| 0 <= k < |cmds| && cmds[k] == c;
      CreateDefenseFixed(c, generator(c), decode);
    }
  }

  /** Part way through the loop, the descriptor chosen for `c` is the one
      chosen from the index the loop started with. */
  lemma DefenseForStable(ix: map<string, Descriptor>, pre: seq<string>, c: string, generator: string -> string,
                         decode: string -> Option<Descriptor>)
    ensures DefenseFor(PlanIndexOf(ix, pre, generator, decode), c, generator, decode) == DefenseFor(ix, c, generator, decode)
  {
    PlanIndex(ix, pre, generator, decode);
    CreateDefenseFixed(c, generator(c), decode);
    if c !in pre {
      assert Lookup(PlanIndexOf(ix, pre, generator, decode), c) == Lookup(ix, c);
    }
  }

  /** One more command extends the chosen descriptors by its own. */
  lemma ChosenSnoc(ix: map<string, Descriptor>, cmds: seq<string>, i: nat, generator: string -> string,
                   decode: string -> Option<Descriptor>)
    requires i < |cmds|
    ensures Chosen(ix, cmds[..i + 1], generator, decode)
         == Chosen(ix, cmds[..i], generator, decode) + [DefenseFor(ix, cmds[i], generator, decode)]
  {
    var s := cmds[..i + 1];
    assert s[..|s| - 1] == cmds[..i];
  }

  lemma PlanSnoc(ix: map<string, Descriptor>, fs: map<string, string>, reg: map<string, ArtifactMeta>, sk: string,
                 cmds: seq<string>, i: nat, generator: string -> string, decode: string -> Option<Descriptor>,
                 writable: string -> bool, now: int)
    requires i < |cmds|
    ensures var d := DefenseFor(ix, cmds[i], generator, decode);
      PlanIndexOf(ix, cmds[..i + 1], generator, decode) == PlanIndexOf(ix, cmds[..i], generator, decode)[cmds[i] := d]
      && PlanFiles(ix, fs, cmds[..i + 1], generator, decode, writable)
         == WriteDecoy(PlanFiles(ix, fs, cmds[..i], generator, decode, writable), d, writable)
      && PlanRegistry(ix, reg, sk, cmds[..i + 1], generator, decode, writable, now)
         == Recorded(PlanRegistry(ix, reg, sk, cmds[..i], generator, decode, writable, now),
                     MaterializedPaths(d, writable), ArtifactMeta(cmds[i], sk, now))
  {
    ChosenSnoc(ix, cmds, i, generator, decode);
    var s, pre := cmds[..i + 1], Chosen(ix, cmds[..i], generator, decode);
    var ds := pre + [DefenseFor(ix, cmds[i], generator, decode)];
    assert s[..|s| - 1] == cmds[..i] && s[|s| - 1] == cmds[i];
    assert ds[..|ds| - 1] == pre && ds[|ds| - 1] == DefenseFor(ix, cmds[i], generator, decode);
  }

  /** One more prediction handled from a state the loop reached: the
      descriptor the current index gives it is the one the plan chose. */
  lemma AppliedStep(ix0: map<string, Descriptor>, fs0: map<string, string>, reg0: map<string, ArtifactMeta>,
                    ix: map<string, Descriptor>, fs: map<string, string>, reg: map<string, ArtifactMeta>,
                    sk: string, cmds: seq<string>, i: nat, generator: string -> string,
                    decode: string -> Option<Descriptor>, writable: string -> bool, now: int)
    requires i < |cmds|
    requires Applied(ix0, fs0, reg0, ix, fs, reg, sk, cmds[..i], generator, decode, writable, now)
    ensures var d := DefenseFor(ix, cmds[i], generator, decode);
      Applied(ix0, fs0, reg0, ix[cmds[i] := d], WriteDecoy(fs, d, writable),
              Recorded(reg, MaterializedPaths(d, writable), ArtifactMeta(cmds[i], sk, now)),
              sk, cmds[..i + 1], generator, decode, writable, now)
  {
    DefenseForStable(ix0, cmds[..i], cmds[i], generator, decode);
    PlanSnoc(ix0, fs0, reg0, sk, cmds, i, generator, decode, writable, now);
  }

  /** The decoy paths written for `c` by the loop started on `ix`. */
  function Decoy(ix: map<string, Descriptor>, c: string, generator: string -> string,
                 decode: string -> Option<Descriptor>, writable: string -> bool): seq<string> {
    MaterializedPaths(DefenseFor(ix, c, generator, decode), writable)
  }

  /** The decoy paths of each descriptor of `ds`, in order. */
  function PathLists(ds: seq<Descriptor>, writable: string -> bool): (r: seq<seq<string>>)
    ensures |r| == |ds|
    ensures forall k :: 0 <= k < |ds| ==> r[k] == MaterializedPaths(ds[k], writable)
    decreases |ds|
  {
    if ds == [] then [] else PathLists(ds[..|ds| - 1], writable) + [MaterializedPaths(ds[|ds| - 1], writable)]
  }

  /** The position of the last path list that is exactly `[p]`, or -1. */
  function LastWriter(ls: seq<seq<string>>, p: string): (k: int)
    ensures -1 <= k < |ls|
    ensures k >= 0 ==> ls[k] == [p]
    decreases |ls|
  {
    if ls == [] then -1
    else if ls[|ls| - 1] == [p] then |ls| - 1
    else LastWriter(ls[..|ls| - 1], p)
  }

  /** No list after the last writer is `[p]`, and -1 means none is. */
  lemma {:induction false} LastWriterIsLast(ls: seq<seq<string>>, p: string)
    ensures forall j :: LastWriter(ls, p) < j < |ls| ==> ls[j] != [p]
    decreases |ls|
  {
    if ls != [] && ls[|ls| - 1] != [p] {
      var init := ls[..|ls| - 1];
      LastWriterIsLast(init, p);
      assert forall j :: 0 <= j < |init| ==> init[j] == ls[j];
    }
  }

  /** The last write wins: after writing the decoys of `ds`, a path holds the
      content of the last descriptor whose decoy it is; a path none of them
      writes keeps its old content. */
  lemma {:induction false} LastDecoyWins(fs: map<string, string>, ds: seq<Descriptor>, p: string,
                                         writable: string -> bool)
    ensures var w := LastWriter(PathLists(ds, writable), p);
      var fs1 := WriteDecoys(fs, ds, writable);
      (w >= 0 ==> p in fs1 && fs1[p] == FirstContent(ds[w]))
      && (w < 0 ==> (p in fs1 <==> p in fs) && (p in fs ==> fs1[p] == fs[p]))
    decreases |ds|
  {
    if ds != [] {
      var init, d := ds[..|ds| - 1], ds[|ds| - 1];
      var ls, lsi := PathLists(ds, writable), PathLists(init, writable);
      assert ls == lsi + [MaterializedPaths(d, writable)];
      assert ls[..|ls| - 1] == lsi;
      LastDecoyWins(fs, init, p, writable);
      MaterializedAtMostIntended(d, writable);
      if MaterializedPaths(d, writable) != [p] {
        assert LastWriter(ls, p) == LastWriter(lsi, p);
        var w := LastWriter(lsi, p);
        if w >= 0 {
          assert init[w] == ds[w];
        }
      }
    }
  }

  /** Likewise for the registry: a path is recorded for the command of the
      last descriptor whose decoy it is, and a path none of them writes keeps
      its record. */
  lemma {:induction false} LastDecoyRecorded(reg: map<string, ArtifactMeta>, sk: string, cmds: seq<string>,
                                             ds: seq<Descriptor>, p: string, writable: string -> bool, now: int)
    requires |cmds| == |ds|
    ensures var w := LastWriter(PathLists(ds, writable), p);
      var reg1 := RecordDecoys(reg, sk, cmds, ds, writable, now);
      (w >= 0 ==> p in reg1 && reg1[p] == ArtifactMeta(cmds[w], sk, now))
      && (w < 0 ==> (p in reg1 <==> p in reg) && (p in reg ==> reg1[p] == reg[p]))
    decreases |ds|
  {
    if ds != [] {
      var init, cinit, d := ds[..|ds| - 1], cmds[..|cmds| - 1], ds[|ds| - 1];
      var ls, lsi := PathLists(ds, writable), PathLists(init, writable);
      assert ls == lsi + [MaterializedPaths(d, writable)];
      assert ls[..|ls| - 1] == lsi;
      LastDecoyRecorded(reg, sk, cinit, init, p, writable, now);
      MaterializedAtMostIntended(d, writable);
      var prev := RecordDecoys(reg, sk, cinit, init, writable, now);
      RecordedAt(prev, MaterializedPaths(d, writable), ArtifactMeta(cmds[|cmds| - 1], sk, now), p);
      if MaterializedPaths(d, writable) == [p] {
        assert LastWriter(ls, p) == |ds| - 1;
      } else {
        assert LastWriter(ls, p) == LastWriter(lsi, p);
        var w := LastWriter(lsi, p);
        if w >= 0 {
          assert cinit[w] == cmds[w];
        }
      }
    }
  }

  /** Recording at most one path touches only that path. */
  lemma RecordedAt(reg: map<string, ArtifactMeta>, paths: seq<string>, meta: ArtifactMeta, p: string)
    requires |paths| <= 1
    ensures var r := Recorded(reg, paths, meta);
      (paths == [p] ==> p in r && r[p] == meta)
      && (paths != [p] ==> (p in r <==> p in reg) && (p in reg ==> r[p] == reg[p]))
  {
  }

  /** After the prediction loop, a path holds the content and the record of
      the last prediction whose decoy it is; a path no prediction writes keeps
      its old content and record. */
  lemma PlanLastDecoyWins(ix: map<string, Descriptor>, fs: map<string, string>, reg: map<string, ArtifactMeta>,
                          sk: string, cmds: seq<string>, p: string, generator: string -> string,
                          decode: string -> Option<Descriptor>, writable: string -> bool, now: int)
    ensures var w := LastWriter(PathLists(Chosen(ix, cmds, generator, decode), writable), p);
      var fs1 := PlanFiles(ix, fs, cmds, generator, decode, writable);
      var reg1 := PlanRegistry(ix, reg, sk, cmds, generator, decode, writable, now);
      (w >= 0 ==>
         Decoy(ix, cmds[w], generator, decode, writable) == [p]
         && p in fs1 && fs1[p] == FirstContent(DefenseFor(ix, cmds[w], generator, decode))
         && p in reg1 && reg1[p] == ArtifactMeta(cmds[w], sk, now)
         && forall j :: w < j < |cmds| ==> Decoy(ix, cmds[j], generator, decode, writable) != [p])
      && (w < 0 ==>
         (forall j :: 0 <= j < |cmds| ==> Decoy(ix, cmds[j], generator, decode, writable) != [p])
         && (p in fs1 <==> p in fs) && (p in fs ==> fs1[p] == fs[p])
         && (p in reg1 <==> p in reg) && (p in reg ==> reg1[p] == reg[p]))
  {
    var ds := Chosen(ix, cmds, generator, decode);
    LastDecoyWins(fs, ds, p, writable);
    LastDecoyRecorded(reg, sk, cmds, ds, p, writable, now);
    LastDecoyWriter(ix, cmds, p, generator, decode, writable);
  }

  /** The last writer found among the chosen descriptors' path lists is the
      last prediction whose decoy is `p`. */
  lemma LastDecoyWriter(ix: map<string, Descriptor>, cmds: seq<string>, p: string, generator: string -> string,
                        decode: string -> Option<Descriptor>, writable: string -> bool)
    ensures var ds := Chosen(ix, cmds, generator, decode);
      var w := LastWriter(PathLists(ds, writable), p);
      (w >= 0 ==> Decoy(ix, cmds[w], generator, decode, writable) == [p]
                  && ds[w] == DefenseFor(ix, cmds[w], generator, decode))
      && forall j :: w < j < |cmds| ==> Decoy(ix, cmds[j], generator, decode, writable) != [p]
  {
    var ds := Chosen(ix, cmds, generator, decode);
    var ls := PathLists(ds, writable);
    LastWriterIsLast(ls, p);
    ChosenDecoys(ix, cmds, generator, decode, writable);
    var w := LastWriter(ls, p);
    forall j | w < j < |cmds|
      ensures Decoy(ix, cmds[j], generator, decode, writable) != [p]
    {
      assert ls[j] != [p];
    }
  }

  /** The path lists of the chosen descriptors are the predictions' decoys. */
  lemma ChosenDecoys(ix: map<string, Descriptor>, cmds: seq<string>, generator: string -> string,
                     decode: string -> Option<Descriptor>, writable: string -> bool)
    ensures var ds := Chosen(ix, cmds, generator, decode);
      forall j :: 0 <= j < |cmds| ==>
        PathLists(ds, writable)[j] == Decoy(ix, cmds[j], generator, decode, writable)
        && ds[j] == DefenseFor(ix, cmds[j], generator, decode)
  {
    ChosenAt(ix, cmds, generator, decode);
  }

  /** The defender's module-level state together with the files it manages. */
  class Defender {
    /** `history_comandi`. */
    var history: map<string, seq<string>>
    /** `active_predictions`. */
    var activePredictions: map<string, Branches>
    /** `active_artifacts`: real decoy path -> metadata. */
    var activeArtifacts: map<string, ArtifactMeta>
    /** The real filesystem, path -> content. */
    var files: map<string, string>
    /** The JSON files on disk. */
    var historyFile: Stored<map<string, seq<string>>>
    var artifactsFile: Stored<map<string, ArtifactMeta>>
    var indexFile: Stored<IndexDoc>

    /** `main`'s start-up: both state files are loaded, no branch is active. */
    constructor (hf: Stored<map<string, seq<string>>>, af: Stored<map<string, ArtifactMeta>>,
                 xf: Stored<IndexDoc>, fs: map<string, string>)
      ensures history == Load(hf, map[]) && activeArtifacts == Load(af, map[])
      ensures activePredictions == map[]
      ensures historyFile == hf && artifactsFile == af && indexFile == xf && files == fs
    {
      history := Load(hf, map[]);
      activeArtifacts := Load(af, map[]);
      activePredictions := map[];
      historyFile, artifactsFile, indexFile, files := hf, af, xf, fs;
    }

    /** Every registered decoy file exists on disk. */
    predicate Consistent()
      reads this`activeArtifacts, this`files
    {
      activeArtifacts.Keys <= files.Keys
    }

    function HistoryOf(sk: string): seq<string>
      reads this`history
    {
      if sk in history then history[sk] else []
    }

    /** `load_defense_index().get("by_command", {})`. */
    function Index(): map<string, Descriptor>
      reads this`indexFile
    {
      var doc := Load(indexFile, IndexDoc(Some(map[])));
      if doc.byCommand.Some? then doc.byCommand.value else map[]
    }

    /** `find_existing_defense`. */
    function FindExistingDefense(command: string): (r: Option<Descriptor>)
      reads this`indexFile
      ensures r == Lookup(Index(), command)
      ensures r.Some? <==> command in Index()
      ensures r.Some? ==> r.value == Index()[command]
    {
      if command in Index() then Some(Index()[command]) else None
    }

    /** A lookup that `plan_and_apply_defenses` takes as a cache hit. */
    predicate Cached(command: string)
      reads this`indexFile
    {
      CachedIn(Index(), command)
    }

    /** `predict_next_commands(session_key)`. */
    function PredictNextCommands(sk: string, oracle: seq<string> -> string): seq<string>
      reads this`history
    {
      Predictions(HistoryOf(sk), oracle)
    }

    /** `update_history`: append at the end of the session's list, creating it
        if needed, then save the history file. */
    method UpdateHistory(sk: string, cmd: string)
      modifies this`history, this`historyFile
      ensures history == old(history)[sk := old(HistoryOf(sk)) + [cmd]]
      ensures forall s :: s != sk ==> HistoryOf(s) == old(HistoryOf(s))
      ensures historyFile == Saved(history)
    {
      history := history[sk := HistoryOf(sk) + [cmd]];
      historyFile := Saved(history);
    }

    /** `register_defense`: overwrite this command's entry of `by_command` and save. */
    method RegisterDefense(command: string, meta: Descriptor)
      modifies this`indexFile
      ensures indexFile == Saved(IndexDoc(Some(old(Index())[command := meta])))
      ensures Index() == old(Index())[command := meta]
      ensures FindExistingDefense(command) == Some(meta)
      ensures forall c :: c != command ==> FindExistingDefense(c) == old(FindExistingDefense(c))
    {
      indexFile := Saved(IndexDoc(Some(Index()[command := meta])));
    }

    /** `materialize_defense_artifacts`: write the first artifact's content at
        `intended_path` and record it in `active_artifacts`. */
    method MaterializeDefenseArtifacts(d: Descriptor, sk: string, command: string, writable: string -> bool, now: int)
      returns (paths: seq<string>)
      modifies this`files, this`activeArtifacts
      ensures paths == MaterializedPaths(d, writable)
      ensures paths == [] ==> files == old(files) && activeArtifacts == old(activeArtifacts)
      ensures paths != [] ==>
        files == old(files)[paths[0] := FirstContent(d)]
        && activeArtifacts == old(activeArtifacts)[paths[0] := ArtifactMeta(command, sk, now)]
    {
      paths := [];
      if d.intendedPath.None? || d.intendedPath.value == "" {
        return;
      }
      if d.artifacts.None? || d.artifacts.value == [] {
        return;
      }
      var content := GetOr(d.artifacts.value[0].content, "");
      var realPath := d.intendedPath.value;
      if writable(realPath) {
        files := files[realPath := content];
        activeArtifacts := activeArtifacts[realPath := ArtifactMeta(command, sk, now)];
        paths := paths + [realPath];
      }
    }

    /** The descriptor used for one prediction: the indexed one on a cache hit,
        otherwise a freshly created one, which is registered. */
    method ObtainDefense(cmd: string, generator: string -> string, decode: string -> Option<Descriptor>)
      returns (meta: Descriptor)
      modifies this`indexFile
      ensures Cached(cmd) && Index() == old(Index())[cmd := meta]
      ensures old(Cached(cmd)) ==> meta == old(Index()[cmd]) && Index() == old(Index())
      ensures !old(Cached(cmd)) ==> meta == CreateDefense(cmd, generator(cmd), decode)
    {
      var existing := FindExistingDefense(cmd);
      if existing.Some? && Present(existing.value) {
        meta := existing.value;
      } else {
        meta := CreateDefense(cmd, generator(cmd), decode);
        CreateDefenseFixed(cmd, generator(cmd), decode);
        RegisterDefense(cmd, meta);
      }
    }

    /** The body of the prediction loop of `plan_and_apply_defenses`: reuse the
        indexed descriptor or create and register one, then materialise it. */
    method DefendPrediction(sk: string, cmd: string, generator: string -> string,
                            decode: string -> Option<Descriptor>, writable: string -> bool, now: int)
      returns (paths: seq<string>)
      modifies this`indexFile, this`files, this`activeArtifacts
      ensures Defended(Index(), cmd, paths, writable)
      ensures Index() == old(Index())[cmd := Index()[cmd]]
      ensures old(Cached(cmd)) ==> Index() == old(Index())
      ensures activeArtifacts == Recorded(old(activeArtifacts), paths, ArtifactMeta(cmd, sk, now))
      ensures activeArtifacts.Keys == old(activeArtifacts).Keys + Elems(paths)
      ensures files.Keys == old(files).Keys + Elems(paths)
      ensures var d := DefenseFor(old(Index()), cmd, generator, decode);
        Index() == old(Index())[cmd := d] && paths == MaterializedPaths(d, writable)
        && files == WriteDecoy(old(files), d, writable)
    {
      var meta := ObtainDefense(cmd, generator, decode);
      paths := MaterializeDefenseArtifacts(meta, sk, cmd, writable, now);
    }

    /** The prediction loop of `plan_and_apply_defenses`: the branch map it
        builds, with one entry per prediction. */
    method DefendAll(sk: string, predictions: seq<string>, generator: string -> string,
                     decode: string -> Option<Descriptor>, writable: string -> bool, now: int)
      returns (arts: map<string, seq<string>>, ghost added: set<string>)
      modifies this`indexFile, this`files, this`activeArtifacts
      ensures arts.Keys == Elems(predictions)
      ensures forall c :: c in arts ==> Defended(Index(), c, arts[c], writable)
      ensures IndexGrowth(old(Index()), Index(), arts.Keys)
      ensures activeArtifacts.Keys == old(activeArtifacts).Keys + added && files.Keys == old(files).Keys + added
      ensures OnlyBranchChanges(old(activeArtifacts), activeArtifacts, sk, predictions)
      ensures Applied(old(Index()), old(files), old(activeArtifacts), Index(), files, activeArtifacts,
                      sk, predictions, generator, decode, writable, now)
    {
      arts := map[];
      added := {};
      for i := 0 to |predictions|
        invariant arts.Keys == Elems(predictions[..i])
        invariant forall c :: c in arts ==> Defended(Index(), c, arts[c], writable)
        invariant activeArtifacts.Keys == old(activeArtifacts).Keys + added && files.Keys == old(files).Keys + added
        invariant OnlyBranchChanges(old(activeArtifacts), activeArtifacts, sk, predictions)
        invariant Applied(old(Index()), old(files), old(activeArtifacts), Index(), files, activeArtifacts,
                          sk, predictions[..i], generator, decode, writable, now)
      {
        var cmd := predictions[i];
        ghost var ix, aa, fs := Index(), activeArtifacts, files;
        AppliedStep(old(Index()), old(files), old(activeArtifacts), ix, fs, aa, sk, predictions, i,
                    generator, decode, writable, now);
        var paths := DefendPrediction(sk, cmd, generator, decode, writable, now);
        DefendedStep(ix, Index(), arts, cmd, paths, arts[cmd := paths], writable);
        OnlyBranchChangesStep(old(activeArtifacts), aa, sk, predictions, paths, ArtifactMeta(cmd, sk, now));
        ElemsSnoc(predictions, i);
        KeysGrow(old(activeArtifacts).Keys, old(files).Keys, aa.Keys, fs.Keys, added, Elems(paths));
        added := added + Elems(paths);
        arts := arts[cmd := paths];
      }
      assert predictions[..|predictions|] == predictions;
      PlanIndex(old(Index()), predictions, generator, decode);
    }

    /** `plan_and_apply_defenses`: reuse or create a descriptor per prediction,
        materialise it, then replace the session's branch set. */
    method PlanAndApplyDefenses(sk: string, predictions: seq<string>, generator: string -> string,
                                decode: string -> Option<Descriptor>, writable: string -> bool, now: int)
      modifies this`indexFile, this`files, this`activeArtifacts, this`activePredictions, this`artifactsFile
      ensures sk in activePredictions && activePredictions == old(activePredictions)[sk := activePredictions[sk]]
      ensures activePredictions - {sk} == old(activePredictions) - {sk}
      ensures activePredictions[sk].predicted == predictions
      ensures activePredictions[sk].artifacts.Keys == Elems(predictions)
      ensures forall p :: p in predictions ==> Defended(Index(), p, activePredictions[sk].artifacts[p], writable)
      ensures IndexGrowth(old(Index()), Index(), Elems(predictions))
      ensures old(activeArtifacts).Keys <= activeArtifacts.Keys && old(files).Keys <= files.Keys
      ensures OnlyBranchChanges(old(activeArtifacts), activeArtifacts, sk, predictions)
      ensures old(Consistent()) ==> Consistent()
      ensures artifactsFile == Saved(activeArtifacts)
      ensures Applied(old(Index()), old(files), old(activeArtifacts), Index(), files, activeArtifacts,
                      sk, predictions, generator, decode, writable, now)
      ensures forall p :: p in predictions ==>
        activePredictions[sk].artifacts[p] == Decoy(old(Index()), p, generator, decode, writable)
    {
      var arts, added := DefendAll(sk, predictions, generator, decode, writable, now);
      PlanIndex(old(Index()), predictions, generator, decode);
      activePredictions := activePredictions[sk := Branches(predictions, arts)];
      artifactsFile := Saved(activeArtifacts);
    }

    /** The inner loop of `cleanup_other_branches` over one prediction's paths:
        remove each existing removable file and drop each registry entry. */
    method DiscardPaths(ps: seq<string>, removable: string -> bool)
      modifies this`files, this`activeArtifacts
      ensures activeArtifacts == old(activeArtifacts) - PathSet(ps)
      ensures files == old(files) - RemovedFiles(PathSet(ps), removable)
      ensures old(Consistent()) ==> Consistent()
    {
      for j := 0 to |ps|
        invariant activeArtifacts == old(activeArtifacts) - PathSet(ps[..j])
        invariant files == old(files) - RemovedFiles(PathSet(ps[..j]), removable)
        invariant old(Consistent()) ==> Consistent()
      {
        var p := ps[j];
        if p != "" && p in files && removable(p) {
          files := files - {p};
        }
        if p != "" && p in activeArtifacts {
          activeArtifacts := activeArtifacts - {p};
        }
        assert ps[..j + 1] == ps[..j] + [p];
        PathSetSnoc(ps[..j], p, removable);
      }
      assert ps[..|ps|] == ps;
    }

    /** The outer loop of `cleanup_other_branches`: discard the paths of every
        command in `cmds`. */
    method DiscardCommands(arts: map<string, seq<string>>, cmds: set<string>, removable: string -> bool)
      modifies this`files, this`activeArtifacts
      ensures activeArtifacts == old(activeArtifacts) - PathsUnder(arts, cmds)
      ensures files == old(files) - RemovedFiles(PathsUnder(arts, cmds), removable)
    {
      var pending := cmds * arts.Keys;
      ghost var gone: set<string> := {};
      while pending != {}
        invariant pending <= cmds * arts.Keys
        invariant gone == PathsUnder(arts, cmds - pending)
        invariant activeArtifacts == old(activeArtifacts) - gone
        invariant files == old(files) - RemovedFiles(gone, removable)
        decreases |pending|
      {
        var c :| c in pending;
        ghost var doneCmds := cmds - pending;
        DiscardPaths(arts[c], removable);
        PathsUnderAdd(arts, doneCmds, c);
        RemovedFilesUnion(gone, PathSet(arts[c]), removable);
        MinusTwice(old(activeArtifacts), gone, PathSet(arts[c]));
        MinusTwice(old(files), RemovedFiles(gone, removable), RemovedFiles(PathSet(arts[c]), removable));
        gone := gone + PathSet(arts[c]);
        assert doneCmds + {c} == cmds - (pending - {c});
        pending := pending - {c};
      }
      PathsUnderOutside(arts, cmds, cmds * arts.Keys);
    }

    /** `cleanup_other_branches`: when `actual` was predicted, delete every
        other prediction's files and registry entries and keep only its branch. */
    method CleanupOtherBranches(sk: string, actual: string, removable: string -> bool)
      modifies this`files, this`activeArtifacts, this`activePredictions, this`artifactsFile
      ensures sk !in old(activePredictions) || actual !in old(activePredictions[sk].predicted) ==>
        files == old(files) && activeArtifacts == old(activeArtifacts)
        && activePredictions == old(activePredictions) && artifactsFile == old(artifactsFile)
      ensures sk in old(activePredictions) && actual in old(activePredictions[sk].predicted) ==>
        var b := old(activePredictions[sk]);
        activePredictions == old(activePredictions)[sk := Branches([actual], map[actual := ArtifactsOf(b.artifacts, actual)])]
        && activeArtifacts == old(activeArtifacts) - StalePaths(b, actual)
        && files == old(files) - RemovedFiles(StalePaths(b, actual), removable)
        && artifactsFile == Saved(activeArtifacts)
      ensures activePredictions - {sk} == old(activePredictions) - {sk}
      ensures old(Consistent()) ==> Consistent()
    {
      if sk !in activePredictions {
        return;
      }
      var b := activePredictions[sk];
      if actual !in b.predicted {
        return;
      }
      var arts := b.artifacts;
      DiscardCommands(arts, arts.Keys - {actual}, removable);
      if old(Consistent()) {
        DiscardKeepsConsistent(old(activeArtifacts), old(files), StalePaths(b, actual), removable);
      }
      artifactsFile := Saved(activeArtifacts);
      activePredictions := activePredictions[sk := Branches([actual], map[actual := ArtifactsOf(arts, actual)])];
    }

    /** The first half of `handle_new_command`: commit the branch of `cmd` if
        it was predicted; every other session is untouched. */
    method CommitBranch(sk: string, cmd: string, removable: string -> bool)
      modifies this`files, this`activeArtifacts, this`activePredictions, this`artifactsFile
      ensures activePredictions == CommittedBranches(old(activePredictions), sk, cmd)
      ensures activeArtifacts == CommittedRegistry(old(activePredictions), old(activeArtifacts), sk, cmd)
      ensures files == CommittedFiles(old(activePredictions), old(files), sk, cmd, removable)
      ensures artifactsFile == if Hit(old(activePredictions), sk, cmd) then Saved(activeArtifacts) else old(artifactsFile)
      ensures old(Consistent()) ==> Consistent()
    {
      CleanupOtherBranches(sk, cmd, removable);
    }

    /** The second half of `handle_new_command`: extend the history, predict
        from it and plan the new branch set. */
    method ExtendAndPlan(sk: string, cmd: string, oracle: seq<string> -> string, generator: string -> string,
                         decode: string -> Option<Descriptor>, writable: string -> bool, now: int)
      modifies this`history, this`historyFile, this`indexFile, this`files, this`activeArtifacts,
               this`activePredictions, this`artifactsFile
      ensures history == old(history)[sk := old(HistoryOf(sk)) + [cmd]] && historyFile == Saved(history)
      ensures sk in activePredictions && activePredictions - {sk} == old(activePredictions) - {sk}
      ensures var predictions := Predictions(history[sk], oracle);
        activePredictions[sk].predicted == predictions
        && activePredictions[sk].artifacts.Keys == Elems(predictions)
        && (forall p :: p in predictions ==> Defended(Index(), p, activePredictions[sk].artifacts[p], writable))
        && IndexGrowth(old(Index()), Index(), Elems(predictions))
        && OnlyBranchChanges(old(activeArtifacts), activeArtifacts, sk, predictions)
      ensures old(activeArtifacts).Keys <= activeArtifacts.Keys && old(files).Keys <= files.Keys
      ensures artifactsFile == Saved(activeArtifacts)
      ensures old(Consistent()) ==> Consistent()
      ensures var predictions := Predictions(history[sk], oracle);
        Applied(old(Index()), old(files), old(activeArtifacts), Index(), files, activeArtifacts,
                sk, predictions, generator, decode, writable, now)
        && forall p :: p in predictions ==>
             activePredictions[sk].artifacts[p] == Decoy(old(Index()), p, generator, decode, writable)
    {
      UpdateHistory(sk, cmd);
      var predictions := PredictNextCommands(sk, oracle);
      PlanAndApplyDefenses(sk, predictions, generator, decode, writable, now);
    }

    /** `handle_new_command` for one log entry: the commit of the logged command
        followed by the new plan. */
    method HandleNewCommand(e: LogEntry, oracle: seq<string> -> string, generator: string -> string,
                            decode: string -> Option<Descriptor>, writable: string -> bool,
                            removable: string -> bool, now: int)
      modifies this`history, this`historyFile, this`indexFile, this`files, this`activeArtifacts,
               this`activePredictions, this`artifactsFile
      ensures Command(e) == "" ==> unchanged(this)
      ensures Command(e) != "" ==>
        var sk, cmd := MakeSessionKey(e), Command(e);
        history == old(history)[sk := old(HistoryOf(sk)) + [cmd]] && historyFile == Saved(history)
        && sk in activePredictions && activePredictions - {sk} == old(activePredictions) - {sk}
      ensures Command(e) != "" ==>
        var sk, cmd := MakeSessionKey(e), Command(e);
        var predictions := Predictions(history[sk], oracle);
        var reg := CommittedRegistry(old(activePredictions), old(activeArtifacts), sk, cmd);
        activePredictions[sk].predicted == predictions
        && activePredictions[sk].artifacts.Keys == Elems(predictions)
        && (forall p :: p in predictions ==> Defended(Index(), p, activePredictions[sk].artifacts[p], writable))
        && IndexGrowth(old(Index()), Index(), Elems(predictions))
        && reg.Keys <= activeArtifacts.Keys
        && CommittedFiles(old(activePredictions), old(files), sk, cmd, removable).Keys <= files.Keys
        && OnlyBranchChanges(reg, activeArtifacts, sk, predictions)
        && artifactsFile == Saved(activeArtifacts)
      ensures Command(e) != "" ==>
        var sk, cmd := MakeSessionKey(e), Command(e);
        var predictions := Predictions(history[sk], oracle);
        Applied(old(Index()), CommittedFiles(old(activePredictions), old(files), sk, cmd, removable),
                CommittedRegistry(old(activePredictions), old(activeArtifacts), sk, cmd),
                Index(), files, activeArtifacts, sk, predictions, generator, decode, writable, now)
        && forall p :: p in predictions ==>
             activePredictions[sk].artifacts[p] == Decoy(old(Index()), p, generator, decode, writable)
      ensures old(Consistent()) ==> Consistent()
    {
      var sk := MakeSessionKey(e);
      var cmd := Command(e);
      if cmd == "" {
        return;
      }
      ghost var ap0 := activePredictions;
      CommitBranch(sk, cmd, removable);
      assert activePredictions - {sk} == ap0 - {sk};
      ghost var reg1, fs1 := activeArtifacts, files;
      ExtendAndPlan(sk, cmd, oracle, generator, decode, writable, now);
      assert reg1.Keys <= activeArtifacts.Keys && fs1.Keys <= files.Keys;
    }
  }

  /** `actual` is one of the session's predictions: the commit case. */
  predicate Hit(ap: map<string, Branches>, sk: string, actual: string) {
    sk in ap && actual in ap[sk].predicted
  }

  /** The branch sets after `actual` was logged: on a hit the session keeps
      only the branch of `actual`. */
  function CommittedBranches(ap: map<string, Branches>, sk: string, actual: string): map<string, Branches> {
    if Hit(ap, sk, actual) then ap[sk := Branches([actual], map[actual := ArtifactsOf(ap[sk].artifacts, actual)])]
    else ap
  }

  /** The registry after `actual` was logged: on a hit the paths of every
      other prediction are dropped. */
  function CommittedRegistry(ap: map<string, Branches>, reg: map<string, ArtifactMeta>, sk: string, actual: string)
    : map<string, ArtifactMeta>
  {
    if Hit(ap, sk, actual) then reg - StalePaths(ap[sk], actual) else reg
  }

  /** The disk after `actual` was logged: on a hit the removable files of
      every other prediction are deleted. */
  function CommittedFiles(ap: map<string, Branches>, fs: map<string, string>, sk: string, actual: string,
                          removable: string -> bool): map<string, string>
  {
    if Hit(ap, sk, actual) then fs - RemovedFiles(StalePaths(ap[sk], actual), removable) else fs
  }

  /** After a commit and the new plan, a decoy of a discarded prediction is
      registered only if the new plan wrote it again for this session. */
  lemma StaleDecoysReplannedOnly(ap: map<string, Branches>, reg0: map<string, ArtifactMeta>,
                                 reg1: map<string, ArtifactMeta>, sk: string, actual: string,
                                 predictions: seq<string>, p: string)
    requires Hit(ap, sk, actual) && p in StalePaths(ap[sk], actual)
    requires OnlyBranchChanges(CommittedRegistry(ap, reg0, sk, actual), reg1, sk, predictions)
    requires p in reg1
    ensures reg1[p].session == sk && reg1[p].command in predictions
  {
  }

  lemma MinusTwice<V>(m: map<string, V>, a: set<string>, b: set<string>)
    ensures (m - a) - b == m - (a + b)
  {
  }

  /** The non-empty paths of a list. */
  function PathSet(ps: seq<string>): set<string> {
    set p | p in ps && p != ""
  }

  /** The paths among `gone` whose file `sudo rm -f` actually removes. */
  function RemovedFiles(gone: set<string>, removable: string -> bool): set<string> {
    set p | p in gone && removable(p)
  }

  lemma PathSetSnoc(ps: seq<string>, p: string, removable: string -> bool)
    ensures PathSet(ps + [p]) == PathSet(ps) + (if p != "" then {p} else {})
    ensures RemovedFiles(PathSet(ps + [p]), removable)
         == RemovedFiles(PathSet(ps), removable) + (if p != "" && removable(p) then {p} else {})
  {
  }

  /** Discarding the same paths from the registry and, where removable, from
      the disk keeps every registered file on disk. */
  lemma DiscardKeepsConsistent<V, W>(reg: map<string, V>, fs: map<string, W>, gone: set<string>, removable: string -> bool)
    requires reg.Keys <= fs.Keys
    ensures (reg - gone).Keys <= (fs - RemovedFiles(gone, removable)).Keys
  {
  }

  lemma RemovedFilesUnion(a: set<string>, b: set<string>, removable: string -> bool)
    ensures RemovedFiles(a + b, removable) == RemovedFiles(a, removable) + RemovedFiles(b, removable)
  {
  }

  /** Commands without a branch contribute no path. */
  lemma PathsUnderOutside(arts: map<string, seq<string>>, cmds: set<string>, pending: set<string>)
    requires pending == cmds * arts.Keys
    ensures PathsUnder(arts, cmds - pending) == {}
  {
  }

  lemma PathsUnderAdd(arts: map<string, seq<string>>, cmds: set<string>, c: string)
    requires c in arts
    ensures PathsUnder(arts, cmds + {c}) == PathsUnder(arts, cmds) + PathSet(arts[c])
  {
  }
}
