/** The file-writing defender variant: the same speculative branch engine as
    `HoneypotDefender`, but every artifact of a descriptor becomes a file,
    forced under the `defense_artifacts` directory, and a commit deletes the
    files of the other branches. */
module ArtifactDefender {
  import opened Outcomes
  import opened PyText
  import opened PyPath
  import opened Seqs
  import opened JsonStore
  import opened HoneypotLog

  const PRED_K: nat := 5
  const CONTEXT_LEN: nat := 5
  const DEFENSE_ARTIFACTS_DIR := "defense_artifacts"
  const DEFAULT_PREDICTIONS := ["ls", "whoami", "pwd", "cat /etc/os-release", "exit"]

  /** One entry of a defence's `artifacts` list. */
  datatype Artifact = Artifact(path: Option<string>, content: Option<string>)

  /** A defence descriptor, reduced to the keys this defender reads. */
  datatype Defense = Defense(description: Option<string>, artifacts: Option<seq<Artifact>>)

  /** The defence index document. */
  datatype IndexDoc = IndexDoc(byCommand: Option<map<string, Defense>>)

  /** A session's branch set: the predictions and the files written for each. */
  datatype Branches = Branches(predicted: seq<string>, artifacts: map<string, seq<string>>)

  /** A descriptor is truthy when it has at least one key. */
  predicate Present(d: Defense) {
    d.description.Some? || d.artifacts.Some?
  }

  function MakeSessionKey(e: LogEntry): string {
    SessionKey(e, "default", "unknown_ip")
  }

  /** `predict_next_commands`: `oracle` stands for retrieval, prompt and model
      call on the last `CONTEXT_LEN` commands and returns the raw text. */
  function Predictions(hist: seq<string>, oracle: seq<string> -> string): seq<string> {
    if hist == [] then DEFAULT_PREDICTIONS
    else
      var raw := oracle(Last(hist, CONTEXT_LEN));
      if raw == "" then DEFAULT_PREDICTIONS
      else
        var candidates := NonBlankLines(raw);
        if candidates == [] then DEFAULT_PREDICTIONS else Take(candidates, PRED_K)
  }

  lemma DefaultsStripped()
    ensures forall k :: 0 <= k < |DEFAULT_PREDICTIONS| ==>
      DEFAULT_PREDICTIONS[k] != "" && Strip(DEFAULT_PREDICTIONS[k]) == DEFAULT_PREDICTIONS[k]
  {
    forall k | 0 <= k < |DEFAULT_PREDICTIONS|
      ensures DEFAULT_PREDICTIONS[k] != "" && Strip(DEFAULT_PREDICTIONS[k]) == DEFAULT_PREDICTIONS[k]
    {
      StripOfStripped(DEFAULT_PREDICTIONS[k]);
    }
  }

  /** Never empty, at most `PRED_K` stripped non-empty commands; the default
      list exactly when there is no history, no response or no non-blank line. */
  lemma PredictionsShape(hist: seq<string>, oracle: seq<string> -> string)
    ensures 1 <= |Predictions(hist, oracle)| <= PRED_K
    ensures forall k :: 0 <= k < |Predictions(hist, oracle)| ==>
      Predictions(hist, oracle)[k] != "" && Strip(Predictions(hist, oracle)[k]) == Predictions(hist, oracle)[k]
    ensures hist == [] || oracle(Last(hist, CONTEXT_LEN)) == "" || NonBlankLines(oracle(Last(hist, CONTEXT_LEN))) == []
      ==> Predictions(hist, oracle) == DEFAULT_PREDICTIONS
    ensures hist != [] && oracle(Last(hist, CONTEXT_LEN)) != "" && NonBlankLines(oracle(Last(hist, CONTEXT_LEN))) != []
      ==> Predictions(hist, oracle) == Take(NonBlankLines(oracle(Last(hist, CONTEXT_LEN))), PRED_K)
  {
    if hist == [] || oracle(Last(hist, CONTEXT_LEN)) == "" || NonBlankLines(oracle(Last(hist, CONTEXT_LEN))) == [] {
      DefaultsStripped();
    } else {
      var lines := NonBlankLines(oracle(Last(hist, CONTEXT_LEN)));
      var r := Take(lines, PRED_K);
      forall k | 0 <= k < |r| ensures r[k] != "" && Strip(r[k]) == r[k] {
        assert r[k] == lines[k];
        StripOfStripped(lines[k]);
      }
    }
  }

  /** A response made only of white space falls back to the default list. */
  lemma BlankResponseGivesDefaults(hist: seq<string>, oracle: seq<string> -> string)
    requires hist != [] && AllSpace(oracle(Last(hist, CONTEXT_LEN)))
    ensures Predictions(hist, oracle) == DEFAULT_PREDICTIONS
  {
    NonBlankLinesOfBlank(oracle(Last(hist, CONTEXT_LEN)));
  }

  /** `create_defense_for_predicted_command`: `generator` is the model call on
      the session history and the command, `decode` is `json.loads` (`None`
      where it raises) and `h` stands for `abs(hash(command))`. */
  function CreateDefense(command: string, hist: seq<string>, generator: (seq<string>, string) -> string,
                         decode: string -> Option<Defense>, h: nat): Defense {
    var raw := generator(hist, command);
    if raw == "" then
      Defense(Some("Fallback defense for predicted command: " + command),
              Some([Artifact(Some(DEFENSE_ARTIFACTS_DIR + "/fallback_" + NatToString(h) + ".txt"),
                             Some("Defense placeholder for predicted command: " + command))]))
    else if decode(raw).None? then
      Defense(Some("Unparseable LLM defense for command: " + command),
              Some([Artifact(Some(DEFENSE_ARTIFACTS_DIR + "/unparsed_" + NatToString(h) + ".txt"), Some(raw))]))
    else decode(raw).value
  }

  /** No response gives a one-artifact placeholder; an unparseable response
      gives a one-artifact descriptor carrying the raw text; a parsed one is
      used as it is, without any fixing. */
  lemma CreateDefenseCases(command: string, hist: seq<string>, generator: (seq<string>, string) -> string,
                           decode: string -> Option<Defense>, h: nat)
    ensures var d := CreateDefense(command, hist, generator, decode, h);
      generator(hist, command) == "" ==>
        Present(d) && d.artifacts.Some? && |d.artifacts.value| == 1
        && d.artifacts.value[0].content == Some("Defense placeholder for predicted command: " + command)
        && DEFENSE_ARTIFACTS_DIR + "/" <= d.artifacts.value[0].path.value
    ensures var d := CreateDefense(command, hist, generator, decode, h);
      generator(hist, command) != "" && decode(generator(hist, command)).None? ==>
        Present(d) && d.artifacts.Some? && |d.artifacts.value| == 1
        && d.artifacts.value[0].content == Some(generator(hist, command))
        && DEFENSE_ARTIFACTS_DIR + "/" <= d.artifacts.value[0].path.value
    ensures generator(hist, command) != "" && decode(generator(hist, command)).Some? ==>
      CreateDefense(command, hist, generator, decode, h) == decode(generator(hist, command)).value
  {
  }

  /** The file one artifact path is written to: the `pathlib` form of the path
      when it starts with `defense_artifacts`, otherwise its last component
      moved into that directory. */
  function ForcedPath(path: string): string {
    var s := PathStr(path);
    if DEFENSE_ARTIFACTS_DIR <= s then s
    else
      var name := PathName(path);
      if name == "" then DEFENSE_ARTIFACTS_DIR else DEFENSE_ARTIFACTS_DIR + "/" + name
  }

  /** Every forced path starts with `defense_artifacts` (a prefix test on the
      text, not on path components); a path already passing that test is only
      normalised, and any other keeps at most its last component. */
  lemma ForcedPathUnderDir(path: string)
    ensures DEFENSE_ARTIFACTS_DIR <= ForcedPath(path)
    ensures DEFENSE_ARTIFACTS_DIR <= PathStr(path) ==> ForcedPath(path) == PathStr(path)
    ensures !(DEFENSE_ARTIFACTS_DIR <= PathStr(path)) ==>
      var rest := ForcedPath(path)[|DEFENSE_ARTIFACTS_DIR|..];
      rest == "" || (rest[0] == '/' && '/' !in rest[1..] && rest[1..] != "." && rest[1..] == PathName(path))
  {
  }

  /** An artifact is written when its `path` is truthy. */
  predicate HasPath(a: Artifact) {
    a.path.Some? && a.path.value != ""
  }

  function Target(a: Artifact): string {
    ForcedPath(GetOr(a.path, ""))
  }

  function ArtifactsOf(d: Defense): seq<Artifact> {
    if d.artifacts.Some? then d.artifacts.value else []
  }

  /** The paths `materialize_defense_artifacts` returns for `arts`: the forced
      path of each artifact that has a path, in artifact order. */
  function Targets(arts: seq<Artifact>): seq<string> {
    Map(Filter(arts, HasPath), Target)
  }

  /** The files after writing each artifact with a path, in order. */
  function WriteAll(fs: map<string, string>, arts: seq<Artifact>): map<string, string>
    decreases |arts|
  {
    if arts == [] then fs
    else
      var a := arts[|arts| - 1];
      var before := WriteAll(fs, arts[..|arts| - 1]);
      if HasPath(a) then before[Target(a) := GetOr(a.content, "")] else before
  }

  /** One more artifact extends both the returned paths and the written files
      by its own target, if it has a path. */
  lemma MaterializeStep(fs: map<string, string>, arts: seq<Artifact>, i: nat)
    requires i < |arts|
    ensures Targets(arts[..i + 1]) == Targets(arts[..i]) + (if HasPath(arts[i]) then [Target(arts[i])] else [])
    ensures WriteAll(fs, arts[..i + 1])
         == (if HasPath(arts[i]) then WriteAll(fs, arts[..i])[Target(arts[i]) := GetOr(arts[i].content, "")]
             else WriteAll(fs, arts[..i]))
  {
    assert arts[..i + 1][..i] == arts[..i];
    assert arts[..i + 1] == arts[..i] + [arts[i]];
    FilterMapSnoc(arts[..i], arts[i], HasPath, Target);
  }

  /** Every returned path starts with `defense_artifacts`. */
  lemma TargetsUnderDir(arts: seq<Artifact>)
    ensures forall k :: 0 <= k < |Targets(arts)| ==> DEFENSE_ARTIFACTS_DIR <= Targets(arts)[k]
  {
    var w := Filter(arts, HasPath);
    forall k | 0 <= k < |Targets(arts)| ensures DEFENSE_ARTIFACTS_DIR <= Targets(arts)[k] {
      ForcedPathUnderDir(GetOr(w[k].path, ""));
    }
  }

  /** Writing adds exactly the returned paths to the files present. */
  lemma {:induction false} WriteAllKeys(fs: map<string, string>, arts: seq<Artifact>)
    ensures WriteAll(fs, arts).Keys == fs.Keys + Elems(Targets(arts))
    decreases |arts|
  {
    if arts != [] {
      var init, a := arts[..|arts| - 1], arts[|arts| - 1];
      WriteAllKeys(fs, init);
      assert arts == init + [a];
      FilterMapSnoc(init, a, HasPath, Target);
    }
  }

  /** The number of artifacts `materialize_defense_artifacts` gets through:
      it stops at the first artifact with a path whose forced target cannot be
      opened for writing (a directory such as `defense_artifacts` itself, or
      a file `os.makedirs` or `open` refuses), raising there. */
  function WrittenCount(arts: seq<Artifact>, writable: string -> bool): (n: nat)
    ensures n <= |arts|
  {
    if arts == [] then 0
    else if HasPath(arts[0]) && !writable(Target(arts[0])) then 0
    else 1 + WrittenCount(arts[1..], writable)
  }

  /** The loop gets past artifact `i` unless it is the one whose write fails. */
  lemma {:induction false} WrittenCountAt(arts: seq<Artifact>, writable: string -> bool, i: nat)
    requires i < |arts| && i <= WrittenCount(arts, writable)
    ensures WrittenCount(arts, writable) == i <==> HasPath(arts[i]) && !writable(Target(arts[i]))
  {
    if i > 0 {
      WrittenCountAt(arts[1..], writable, i - 1);
    }
  }

  /** Every artifact of the descriptor is written without an exception. */
  predicate WritesAll(d: Defense, writable: string -> bool) {
    WrittenCount(ArtifactsOf(d), writable) == |ArtifactsOf(d)|
  }

  /** A run gets through every artifact exactly when every target named is
      writable. */
  lemma {:induction false} WrittenCountAll(arts: seq<Artifact>, writable: string -> bool)
    ensures WrittenCount(arts, writable) == |arts| <==>
      forall k :: 0 <= k < |arts| && HasPath(arts[k]) ==> writable(Target(arts[k]))
  {
    if arts != [] {
      WrittenCountAll(arts[1..], writable);
      assert forall k :: 1 <= k < |arts| ==> arts[k] == arts[1..][k - 1];
    }
  }

  /** A descriptor is written through exactly when every target it names is
      writable. */
  lemma WritesAllExactly(d: Defense, writable: string -> bool)
    ensures WritesAll(d, writable) <==>
      forall k :: 0 <= k < |ArtifactsOf(d)| && HasPath(ArtifactsOf(d)[k]) ==> writable(Target(ArtifactsOf(d)[k]))
  {
    WrittenCountAll(ArtifactsOf(d), writable);
  }

  /** The files listed under the given commands of a branch set. */
  function PathsUnder(arts: map<string, seq<string>>, cmds: set<string>): set<string> {
    set c, p | c in cmds && c in arts && p in arts[c] :: p
  }

  /** The files a commit of `actual` discards: those of every other prediction. */
  function StalePaths(b: Branches, actual: string): set<string> {
    PathsUnder(b.artifacts, b.artifacts.Keys - {actual})
  }

  /** The files `os.remove` deletes among `gone`: a missing file raises
      `FileNotFoundError` and any other failure is reported; both are ignored. */
  function Removed(gone: set<string>, removable: string -> bool): set<string> {
    set p | p in gone && removable(p)
  }

  lemma RemovedUnion(a: set<string>, b: set<string>, removable: string -> bool)
    ensures Removed(a + b, removable) == Removed(a, removable) + Removed(b, removable)
  {
  }

  lemma MinusTwice<V>(m: map<string, V>, a: set<string>, b: set<string>)
    ensures (m - a) - b == m - (a + b)
  {
  }

  lemma PathsUnderAdd(arts: map<string, seq<string>>, cmds: set<string>, c: string)
    requires c in arts
    ensures PathsUnder(arts, cmds + {c}) == PathsUnder(arts, cmds) + Elems(arts[c])
  {
  }

  lemma PathsUnderOutside(arts: map<string, seq<string>>, cmds: set<string>, pending: set<string>)
    requires pending == cmds * arts.Keys
    ensures PathsUnder(arts, cmds - pending) == {}
  {
  }

  function BranchOf(arts: map<string, seq<string>>, c: string): seq<string> {
    if c in arts then arts[c] else []
  }

  /** Files are not namespaced per command: when two branches list the same
      file, committing one of them deletes the file the kept branch wrote. */
  lemma SharedFileIsLost(b: Branches, actual: string, other: string, p: string,
                         fs: map<string, string>, removable: string -> bool)
    requires actual in b.artifacts && other in b.artifacts && other != actual
    requires p in b.artifacts[actual] && p in b.artifacts[other] && removable(p)
    ensures p !in fs - Removed(StalePaths(b, actual), removable)
  {
    assert p in PathsUnder(b.artifacts, b.artifacts.Keys - {actual});
  }

  /** The descriptor the prediction loop uses for `c` when it started on
      `ix`: the indexed one on a cache hit, otherwise the created one. */
  function DefenseFor(ix: map<string, Defense>, c: string, hist: seq<string>,
                      generator: (seq<string>, string) -> string, decode: string -> Option<Defense>, h: nat): Defense {
    if CachedIn(ix, c) then ix[c] else CreateDefense(c, hist, generator, decode, h)
  }

  /** The files after one descriptor's artifacts were written, up to the
      first write that fails. */
  function WriteDefense(fs: map<string, string>, d: Defense, writable: string -> bool): map<string, string> {
    var arts := ArtifactsOf(d);
    WriteAll(fs, arts[..WrittenCount(arts, writable)])
  }

  /** The descriptors the loop started on `ix` uses for `cmds`, in order;
      `hashes` stands for `abs(hash(cmd))`. */
  function Chosen(ix: map<string, Defense>, cmds: seq<string>, hist: seq<string>,
                  generator: (seq<string>, string) -> string, decode: string -> Option<Defense>,
                  hashes: string -> nat): (r: seq<Defense>)
    ensures |r| == |cmds|
    decreases |cmds|
  {
    if cmds == [] then []
    else
      var c := cmds[|cmds| - 1];
      Chosen(ix, cmds[..|cmds| - 1], hist, generator, decode, hashes) + [DefenseFor(ix, c, hist, generator, decode, hashes(c))]
  }

  /** The descriptor at each position is the one chosen for its command. */
  lemma {:induction false} ChosenAt(ix: map<string, Defense>, cmds: seq<string>, hist: seq<string>,
                                    generator: (seq<string>, string) -> string, decode: string -> Option<Defense>,
                                    hashes: string -> nat)
    ensures forall k :: 0 <= k < |cmds| ==>
      Chosen(ix, cmds, hist, generator, decode, hashes)[k] == DefenseFor(ix, cmds[k], hist, generator, decode, hashes(cmds[k]))
    decreases |cmds|
  {
    if cmds != [] {
      var init := cmds[..|cmds| - 1];
      ChosenAt(ix, init, hist, generator, decode, hashes);
      assert forall k :: 0 <= k < |init| ==> init[k] == cmds[k];
    }
  }

  /** The files after the descriptors of `ds` were written in turn. */
  function WriteDefenses(fs: map<string, string>, ds: seq<Defense>, writable: string -> bool): map<string, string>
    decreases |ds|
  {
    if ds == [] then fs else WriteDefense(WriteDefenses(fs, ds[..|ds| - 1], writable), ds[|ds| - 1], writable)
  }

  /** The artifacts the descriptors of `ds` get written, in order: each
      descriptor's artifacts up to its first failing write. */
  function WrittenArtifacts(ds: seq<Defense>, writable: string -> bool): seq<Artifact>
    decreases |ds|
  {
    if ds == [] then []
    else
      var arts := ArtifactsOf(ds[|ds| - 1]);
      WrittenArtifacts(ds[..|ds| - 1], writable) + arts[..WrittenCount(arts, writable)]
  }

  /** Writing two runs of artifacts is writing the first, then the second. */
  lemma {:induction false} WriteAllAppend(fs: map<string, string>, a: seq<Artifact>, b: seq<Artifact>)
    ensures WriteAll(fs, a + b) == WriteAll(WriteAll(fs, a), b)
    decreases |b|
  {
    if b == [] {
      assert a + b == a;
    } else {
      var init := b[..|b| - 1];
      WriteAllAppend(fs, a, init);
      assert (a + b)[..|a + b| - 1] == a + init && (a + b)[|a + b| - 1] == b[|b| - 1];
    }
  }

  /** Writing the descriptors in turn is writing all their written artifacts
      as one run. */
  lemma {:induction false} WriteDefensesFlat(fs: map<string, string>, ds: seq<Defense>, writable: string -> bool)
    ensures WriteDefenses(fs, ds, writable) == WriteAll(fs, WrittenArtifacts(ds, writable))
    decreases |ds|
  {
    if ds != [] {
      var init, arts := ds[..|ds| - 1], ArtifactsOf(ds[|ds| - 1]);
      WriteDefensesFlat(fs, init, writable);
      WriteAllAppend(fs, WrittenArtifacts(init, writable), arts[..WrittenCount(arts, writable)]);
    }
  }

  /** The position of the last artifact written to `p`, or -1. */
  function LastArtifact(arts: seq<Artifact>, p: string): (k: int)
    ensures -1 <= k < |arts|
    ensures k >= 0 ==> HasPath(arts[k]) && Target(arts[k]) == p
    decreases |arts|
  {
    if arts == [] then -1
    else if HasPath(arts[|arts| - 1]) && Target(arts[|arts| - 1]) == p then |arts| - 1
    else LastArtifact(arts[..|arts| - 1], p)
  }

  /** The last write wins: after a run of artifacts a path holds the content
      of the last artifact written to it, no later artifact is written to it,
      and a path none of them is written to keeps its old content. */
  lemma {:induction false} LastArtifactWins(fs: map<string, string>, arts: seq<Artifact>, p: string)
    ensures var k := LastArtifact(arts, p);
      var fs1 := WriteAll(fs, arts);
      (k >= 0 ==> p in fs1 && fs1[p] == GetOr(arts[k].content, ""))
      && (k < 0 ==> (p in fs1 <==> p in fs) && (p in fs ==> fs1[p] == fs[p]))
      && (forall j :: k < j < |arts| ==> !(HasPath(arts[j]) && Target(arts[j]) == p))
    decreases |arts|
  {
    if arts != [] {
      var init := arts[..|arts| - 1];
      LastArtifactWins(fs, init, p);
      assert forall j :: 0 <= j < |init| ==> init[j] == arts[j];
    }
  }

  /** After the prediction loop, a path holds the content of the last
      artifact written to it, over all predictions handled, in order. */
  lemma PlanFilesLastWrite(ix: map<string, Defense>, fs: map<string, string>, cmds: seq<string>, hist: seq<string>,
                           generator: (seq<string>, string) -> string, decode: string -> Option<Defense>,
                           hashes: string -> nat, writable: string -> bool, p: string)
    ensures var arts := WrittenArtifacts(Chosen(ix, cmds, hist, generator, decode, hashes), writable);
      var k := LastArtifact(arts, p);
      var fs1 := PlanFiles(ix, fs, cmds, hist, generator, decode, hashes, writable);
      (k >= 0 ==> p in fs1 && fs1[p] == GetOr(arts[k].content, ""))
      && (k < 0 ==> (p in fs1 <==> p in fs) && (p in fs ==> fs1[p] == fs[p]))
  {
    var ds := Chosen(ix, cmds, hist, generator, decode, hashes);
    WriteDefensesFlat(fs, ds, writable);
    LastArtifactWins(fs, WrittenArtifacts(ds, writable), p);
  }

  /** The number of descriptors written through before the first one whose
      write fails. */
  function PlannedCount(ds: seq<Defense>, writable: string -> bool): (n: nat)
    ensures n <= |ds|
  {
    if ds == [] then 0
    else if !WritesAll(ds[0], writable) then 0
    else 1 + PlannedCount(ds[1..], writable)
  }

  /** The loop gets past descriptor `i` unless it is the one whose write fails. */
  lemma {:induction false} PlannedCountAt(ds: seq<Defense>, writable: string -> bool, i: nat)
    requires i < |ds| && i <= PlannedCount(ds, writable)
    ensures PlannedCount(ds, writable) == i <==> !WritesAll(ds[i], writable)
  {
    if i > 0 {
      PlannedCountAt(ds[1..], writable, i - 1);
    }
  }

  /** Every descriptor is written through exactly when the count reaches the end. */
  lemma {:induction false} PlannedCountAll(ds: seq<Defense>, writable: string -> bool)
    ensures PlannedCount(ds, writable) == |ds| <==> forall k :: 0 <= k < |ds| ==> WritesAll(ds[k], writable)
  {
    if ds != [] {
      PlannedCountAll(ds[1..], writable);
      assert forall k :: 1 <= k < |ds| ==> ds[k] == ds[1..][k - 1];
    }
  }

  /** The index after the prediction loop of `plan_and_apply_defenses` has
      handled `cmds` in order, starting from `ix`. */
  function PlanIndexOf(ix: map<string, Defense>, cmds: seq<string>, hist: seq<string>,
                       generator: (seq<string>, string) -> string, decode: string -> Option<Defense>,
                       hashes: string -> nat): map<string, Defense>
  {
    Assigned(ix, cmds, Chosen(ix, cmds, hist, generator, decode, hashes))
  }

  /** The files after the loop has handled `cmds`: each prediction's artifacts
      are written in turn, so the last write to a path decides its content. */
  function PlanFiles(ix: map<string, Defense>, fs: map<string, string>, cmds: seq<string>, hist: seq<string>,
                     generator: (seq<string>, string) -> string, decode: string -> Option<Defense>,
                     hashes: string -> nat, writable: string -> bool): map<string, string>
  {
    WriteDefenses(fs, Chosen(ix, cmds, hist, generator, decode, hashes), writable)
  }

  /** How many predictions the loop handles: all of them, or those up to and
      including the first whose write raises. */
  function Reached(ix: map<string, Defense>, cmds: seq<string>, hist: seq<string>,
                   generator: (seq<string>, string) -> string, decode: string -> Option<Defense>,
                   hashes: string -> nat, writable: string -> bool): (n: nat)
    ensures n <= |cmds|
  {
    var k := PlannedCount(Chosen(ix, cmds, hist, generator, decode, hashes), writable);
    if k < |cmds| then k + 1 else k
  }

  /** Index and files went from the first two to the last two as the
      prediction loop over `cmds` says. */
  ghost predicate Applied(ix0: map<string, Defense>, fs0: map<string, string>,
                          ix1: map<string, Defense>, fs1: map<string, string>, cmds: seq<string>, hist: seq<string>,
                          generator: (seq<string>, string) -> string, decode: string -> Option<Defense>,
                          hashes: string -> nat, writable: string -> bool)
  {
    ix1 == PlanIndexOf(ix0, cmds, hist, generator, decode, hashes)
    && fs1 == PlanFiles(ix0, fs0, cmds, hist, generator, decode, hashes, writable)
  }

  /** After the loop every prediction is indexed with the descriptor chosen
      for it: a cache hit keeps its entry, a miss gets the created descriptor
      (truthy or not), and no other command's entry changes. */
  lemma PlanIndex(ix: map<string, Defense>, cmds: seq<string>, hist: seq<string>,
                  generator: (seq<string>, string) -> string, decode: string -> Option<Defense>, hashes: string -> nat)
    ensures var r := PlanIndexOf(ix, cmds, hist, generator, decode, hashes);
      r.Keys == ix.Keys + Elems(cmds)
      && (forall c :: c in cmds ==> r[c] == DefenseFor(ix, c, hist, generator, decode, hashes(c)))
      && (forall c :: c in cmds && !CachedIn(ix, c) ==> r[c] == CreateDefense(c, hist, generator, decode, hashes(c)))
      && (forall c :: c !in cmds || CachedIn(ix, c) ==> Lookup(r, c) == Lookup(ix, c))
  {
    var ds := Chosen(ix, cmds, hist, generator, decode, hashes);
    ChosenAt(ix, cmds, hist, generator, decode, hashes);
    AssignedEntries(ix, cmds, ds);
    var r := PlanIndexOf(ix, cmds, hist, generator, decode, hashes);
    forall c | c in cmds
      ensures r[c] == DefenseFor(ix, c, hist, generator, decode, hashes(c))
    {
      var k :| 0 <= k < |cmds| && cmds[k] == c;
    }
  }

  /** Part way through the loop, the descriptor chosen for `c` is the one
      chosen from the index the loop started with: an entry the loop
      registered is either truthy, and reused, or created again the same way. */
  lemma DefenseForStable(ix: map<string, Defense>, pre: seq<string>, c: string, hist: seq<string>,
                         generator: (seq<string>, string) -> string, decode: string -> Option<Defense>,
                         hashes: string -> nat)
    ensures DefenseFor(PlanIndexOf(ix, pre, hist, generator, decode, hashes), c, hist, generator, decode, hashes(c))
         == DefenseFor(ix, c, hist, generator, decode, hashes(c))
  {
    PlanIndex(ix, pre, hist, generator, decode, hashes);
    if c !in pre {
      assert Lookup(PlanIndexOf(ix, pre, hist, generator, decode, hashes), c) == Lookup(ix, c);
    }
  }

  /** Handling a prefix of the predictions changes no entry of a command
      outside them, nor the entry of a cache hit. */
  lemma PlanIndexPrefix(ix: map<string, Defense>, cmds: seq<string>, n: nat, hist: seq<string>,
                        generator: (seq<string>, string) -> string, decode: string -> Option<Defense>,
                        hashes: string -> nat)
    requires n <= |cmds|
    ensures var r := PlanIndexOf(ix, cmds[..n], hist, generator, decode, hashes);
      forall c :: c !in cmds || CachedIn(ix, c) ==> Lookup(r, c) == Lookup(ix, c)
  {
    PlanIndex(ix, cmds[..n], hist, generator, decode, hashes);
    assert forall c :: c in cmds[..n] ==> c in cmds;
  }

  /** The loop stops at prediction `i`, whose write raised: it handled the
      predictions up to and including `i`, and the entries of other commands
      and of cache hits are unchanged. */
  lemma PlanStopped(ix0: map<string, Defense>, fs0: map<string, string>,
                    ix1: map<string, Defense>, fs1: map<string, string>, cmds: seq<string>, i: nat, hist: seq<string>,
                    generator: (seq<string>, string) -> string, decode: string -> Option<Defense>,
                    hashes: string -> nat, writable: string -> bool)
    requires i < |cmds| && i <= PlannedCount(Chosen(ix0, cmds, hist, generator, decode, hashes), writable)
    requires Applied(ix0, fs0, ix1, fs1, cmds[..i + 1], hist, generator, decode, hashes, writable)
    requires cmds[i] in ix1 && !WritesAll(ix1[cmds[i]], writable)
    requires ix1[cmds[i]] == Chosen(ix0, cmds, hist, generator, decode, hashes)[i]
    ensures Reached(ix0, cmds, hist, generator, decode, hashes, writable) == i + 1
    ensures PlannedCount(Chosen(ix0, cmds, hist, generator, decode, hashes), writable) != |cmds|
    ensures forall c :: c !in cmds || CachedIn(ix0, c) ==> Lookup(ix1, c) == Lookup(ix0, c)
  {
    PlannedCountAt(Chosen(ix0, cmds, hist, generator, decode, hashes), writable, i);
    PlanIndexPrefix(ix0, cmds, i + 1, hist, generator, decode, hashes);
  }

  /** The loop ran to the end: it handled every prediction, and the entries of
      other commands and of cache hits are unchanged. */
  lemma PlanCompleted(ix0: map<string, Defense>, fs0: map<string, string>,
                      ix1: map<string, Defense>, fs1: map<string, string>, cmds: seq<string>, hist: seq<string>,
                      generator: (seq<string>, string) -> string, decode: string -> Option<Defense>,
                      hashes: string -> nat, writable: string -> bool)
    requires |cmds| <= PlannedCount(Chosen(ix0, cmds, hist, generator, decode, hashes), writable)
    requires Applied(ix0, fs0, ix1, fs1, cmds, hist, generator, decode, hashes, writable)
    ensures Reached(ix0, cmds, hist, generator, decode, hashes, writable) == |cmds|
    ensures PlannedCount(Chosen(ix0, cmds, hist, generator, decode, hashes), writable) == |cmds|
    ensures forall c :: c !in cmds || CachedIn(ix0, c) ==> Lookup(ix1, c) == Lookup(ix0, c)
  {
    PlanIndexPrefix(ix0, cmds, |cmds|, hist, generator, decode, hashes);
    assert cmds[..|cmds|] == cmds;
  }

  /** One more command extends the chosen descriptors by its own. */
  lemma ChosenSnoc(ix: map<string, Defense>, cmds: seq<string>, i: nat, hist: seq<string>,
                   generator: (seq<string>, string) -> string, decode: string -> Option<Defense>,
                   hashes: string -> nat)
    requires i < |cmds|
    ensures Chosen(ix, cmds[..i + 1], hist, generator, decode, hashes)
         == Chosen(ix, cmds[..i], hist, generator, decode, hashes)
            + [DefenseFor(ix, cmds[i], hist, generator, decode, hashes(cmds[i]))]
  {
    var s := cmds[..i + 1];
    assert s[..|s| - 1] == cmds[..i];
  }

  /** One more prediction handled from a state the loop reached: the
      descriptor the current index gives it is the one the plan chose, it is
      registered, and its artifacts are written. */
  lemma AppliedStep(ix0: map<string, Defense>, fs0: map<string, string>,
                    ix: map<string, Defense>, fs: map<string, string>, cmds: seq<string>, i: nat, hist: seq<string>,
                    generator: (seq<string>, string) -> string, decode: string -> Option<Defense>,
                    hashes: string -> nat, writable: string -> bool)
    requires i < |cmds|
    requires Applied(ix0, fs0, ix, fs, cmds[..i], hist, generator, decode, hashes, writable)
    ensures var d := DefenseFor(ix, cmds[i], hist, generator, decode, hashes(cmds[i]));
      d == Chosen(ix0, cmds, hist, generator, decode, hashes)[i]
      && Applied(ix0, fs0, ix[cmds[i] := d], WriteDefense(fs, d, writable), cmds[..i + 1],
                 hist, generator, decode, hashes, writable)
  {
    DefenseForStable(ix0, cmds[..i], cmds[i], hist, generator, decode, hashes);
    PlanSnoc(ix0, fs0, cmds, i, hist, generator, decode, hashes, writable);
  }

  lemma PlanSnoc(ix: map<string, Defense>, fs: map<string, string>, cmds: seq<string>, i: nat, hist: seq<string>,
                 generator: (seq<string>, string) -> string, decode: string -> Option<Defense>,
                 hashes: string -> nat, writable: string -> bool)
    requires i < |cmds|
    ensures var d := DefenseFor(ix, cmds[i], hist, generator, decode, hashes(cmds[i]));
      d == Chosen(ix, cmds, hist, generator, decode, hashes)[i]
      && PlanIndexOf(ix, cmds[..i + 1], hist, generator, decode, hashes)
         == PlanIndexOf(ix, cmds[..i], hist, generator, decode, hashes)[cmds[i] := d]
      && PlanFiles(ix, fs, cmds[..i + 1], hist, generator, decode, hashes, writable)
         == WriteDefense(PlanFiles(ix, fs, cmds[..i], hist, generator, decode, hashes, writable), d, writable)
  {
    ChosenSnoc(ix, cmds, i, hist, generator, decode, hashes);
    ChosenAt(ix, cmds, hist, generator, decode, hashes);
    var s, pre := cmds[..i + 1], Chosen(ix, cmds[..i], hist, generator, decode, hashes);
    var ds := pre + [DefenseFor(ix, cmds[i], hist, generator, decode, hashes(cmds[i]))];
    assert s[..|s| - 1] == cmds[..i] && s[|s| - 1] == cmds[i];
    assert ds[..|ds| - 1] == pre && ds[|ds| - 1] == DefenseFor(ix, cmds[i], hist, generator, decode, hashes(cmds[i]));
  }

  /** The module-level state of the defender and the files it writes. */
  class Defender {
    /** `history_comandi`. */
    var history: map<string, seq<string>>
    /** `active_predictions`. */
    var activePredictions: map<string, Branches>
    /** The filesystem near the defender, path -> content. */
    var files: map<string, string>
    var historyFile: Stored<map<string, seq<string>>>
    var indexFile: Stored<IndexDoc>

    /** `main`'s start-up: the history is loaded, no branch is active. */
    constructor (hf: Stored<map<string, seq<string>>>, xf: Stored<IndexDoc>, fs: map<string, string>)
      ensures history == Load(hf, map[]) && activePredictions == map[]
      ensures historyFile == hf && indexFile == xf && files == fs
    {
      history := Load(hf, map[]);
      activePredictions := map[];
      historyFile, indexFile, files := hf, xf, fs;
    }

    function HistoryOf(sk: string): seq<string>
      reads this`history
    {
      if sk in history then history[sk] else []
    }

    /** `load_defense_index().get("by_command", {})`. */
    function Index(): map<string, Defense>
      reads this`indexFile
    {
      var doc := Load(indexFile, IndexDoc(Some(map[])));
      if doc.byCommand.Some? then doc.byCommand.value else map[]
    }

    /** `find_existing_defense`. */
    function FindExistingDefense(command: string): (r: Option<Defense>)
      reads this`indexFile
      ensures r.Some? <==> command in Index()
      ensures r.Some? ==> r.value == Index()[command]
    {
      if command in Index() then Some(Index()[command]) else None
    }

    predicate Cached(command: string)
      reads this`indexFile
    {
      command in Index() && Present(Index()[command])
    }

    /** `update_history`. */
    method UpdateHistory(sk: string, cmd: string)
      modifies this`history, this`historyFile
      ensures history == old(history)[sk := old(HistoryOf(sk)) + [cmd]]
      ensures forall s :: s != sk ==> HistoryOf(s) == old(HistoryOf(s))
      ensures historyFile == Saved(history)
    {
      history := history[sk := HistoryOf(sk) + [cmd]];
      historyFile := Saved(history);
    }

    /** `register_defense`. */
    method RegisterDefense(command: string, meta: Defense)
      modifies this`indexFile
      ensures indexFile == Saved(IndexDoc(Some(old(Index())[command := meta])))
      ensures Index() == old(Index())[command := meta]
      ensures FindExistingDefense(command) == Some(meta)
      ensures forall c :: c != command ==> FindExistingDefense(c) == old(FindExistingDefense(c))
    {
      indexFile := Saved(IndexDoc(Some(Index()[command := meta])));
    }

    /** `materialize_defense_artifacts`: write every artifact with a path, in
        order, at its forced path; the first write that fails raises, and the
        files written before it stay. */
    method MaterializeDefenseArtifacts(d: Defense, writable: string -> bool) returns (r: Result<seq<string>>)
      modifies this`files
      ensures files == WriteAll(old(files), ArtifactsOf(d)[..WrittenCount(ArtifactsOf(d), writable)])
      ensures r.Ok? <==> WritesAll(d, writable)
      ensures r.Ok? ==> r.value == Targets(ArtifactsOf(d))
    {
      var arts := ArtifactsOf(d);
      var paths := [];
      for i := 0 to |arts|
        invariant i <= WrittenCount(arts, writable)
        invariant paths == Targets(arts[..i])
        invariant files == WriteAll(old(files), arts[..i])
      {
        var art := arts[i];
        MaterializeStep(old(files), arts, i);
        WrittenCountAt(arts, writable, i);
        if art.path.Some? && art.path.value != "" {
          var p := Target(art);
          if !writable(p) {
            r := Err("OSError: " + p);
            return;
          }
          files := files[p := GetOr(art.content, "")];
          paths := paths + [p];
        }
      }
      assert arts[..|arts|] == arts;
      r := Ok(paths);
    }

    /** The descriptor used for one prediction: the indexed one on a cache hit,
        otherwise a freshly created one, which is registered. */
    method ObtainDefense(cmd: string, sk: string, generator: (seq<string>, string) -> string,
                         decode: string -> Option<Defense>, h: nat)
      returns (meta: Defense)
      modifies this`indexFile
      ensures Index() == old(Index())[cmd := meta]
      ensures old(Cached(cmd)) ==> meta == old(Index()[cmd]) && Index() == old(Index())
      ensures !old(Cached(cmd)) ==> meta == CreateDefense(cmd, HistoryOf(sk), generator, decode, h)
    {
      var existing := FindExistingDefense(cmd);
      if existing.Some? && Present(existing.value) {
        meta := existing.value;
      } else {
        meta := CreateDefense(cmd, HistoryOf(sk), generator, decode, h);
        RegisterDefense(cmd, meta);
      }
    }

    /** The body of the prediction loop of `plan_and_apply_defenses`: the
        descriptor is registered before it is written, so a failed write
        leaves it in the index. */
    method DefendPrediction(sk: string, cmd: string, generator: (seq<string>, string) -> string,
                            decode: string -> Option<Defense>, h: nat, writable: string -> bool)
      returns (r: Result<seq<string>>)
      modifies this`indexFile, this`files
      ensures cmd in Index() && Index() == old(Index())[cmd := Index()[cmd]]
      ensures old(Cached(cmd)) ==> Index() == old(Index())
      ensures !old(Cached(cmd)) ==> Index()[cmd] == CreateDefense(cmd, HistoryOf(sk), generator, decode, h)
      ensures Index()[cmd] == DefenseFor(old(Index()), cmd, HistoryOf(sk), generator, decode, h)
      ensures var arts := ArtifactsOf(Index()[cmd]);
        files == WriteAll(old(files), arts[..WrittenCount(arts, writable)])
      ensures r.Ok? <==> WritesAll(Index()[cmd], writable)
      ensures r.Ok? ==> Materialized(Index(), cmd, r.value, writable) && files.Keys == old(files).Keys + Elems(r.value)
      ensures old(files).Keys <= files.Keys
    {
      var meta := ObtainDefense(cmd, sk, generator, decode, h);
      r := MaterializeDefenseArtifacts(meta, writable);
      var arts := ArtifactsOf(meta);
      WriteAllKeys(old(files), arts[..WrittenCount(arts, writable)]);
      assert r.Ok? ==> arts[..WrittenCount(arts, writable)] == arts;
    }

    /** The prediction loop of `plan_and_apply_defenses`; `hashes` stands for
        `abs(hash(cmd))`. It stops at the first prediction whose files cannot
        all be written. */
    method DefendAll(sk: string, predictions: seq<string>, generator: (seq<string>, string) -> string,
                     decode: string -> Option<Defense>, hashes: string -> nat, writable: string -> bool)
      returns (r: Result<map<string, seq<string>>>)
      modifies this`indexFile, this`files
      ensures r.Ok? <==> forall c :: c in predictions ==> c in Index() && WritesAll(Index()[c], writable)
      ensures r.Ok? ==>
        r.value.Keys == Elems(predictions)
        && (forall c :: c in r.value ==> Materialized(Index(), c, r.value[c], writable))
        && (forall c, p :: c in r.value && p in r.value[c] ==> p in files)
      ensures forall c :: c !in predictions || CachedIn(old(Index()), c) ==> Lookup(Index(), c) == Lookup(old(Index()), c)
      ensures old(files).Keys <= files.Keys
      ensures r.Ok? <==> PlannedCount(Chosen(old(Index()), predictions, HistoryOf(sk), generator, decode, hashes), writable)
                         == |predictions|
      ensures Applied(old(Index()), old(files), Index(), files,
                      predictions[..Reached(old(Index()), predictions, HistoryOf(sk), generator, decode, hashes, writable)],
                      HistoryOf(sk), generator, decode, hashes, writable)
    {
      var arts := map[];
      ghost var ds := Chosen(old(Index()), predictions, HistoryOf(sk), generator, decode, hashes);
      for i := 0 to |predictions|
        invariant i <= PlannedCount(ds, writable)
        invariant Applied(old(Index()), old(files), Index(), files, predictions[..i],
                          HistoryOf(sk), generator, decode, hashes, writable)
        invariant arts.Keys == Elems(predictions[..i])
        invariant forall c :: c in arts ==> Materialized(Index(), c, arts[c], writable)
        invariant Covered(arts, files)
        invariant old(files).Keys <= files.Keys
      {
        var cmd := predictions[i];
        ghost var ix, fs := Index(), files;
        ghost var d := DefenseFor(ix, cmd, HistoryOf(sk), generator, decode, hashes(cmd));
        AppliedStep(old(Index()), old(files), ix, fs, predictions, i, HistoryOf(sk), generator, decode, hashes, writable);
        var paths := DefendPrediction(sk, cmd, generator, decode, hashes(cmd), writable);
        assert Index() == ix[cmd := d] && files == WriteDefense(fs, d, writable);
        PlannedCountAt(ds, writable, i);
        ElemsSnoc(predictions, i);
        if paths.Err? {
          PlanStopped(old(Index()), old(files), Index(), files, predictions, i, HistoryOf(sk),
                      generator, decode, hashes, writable);
          r := Err(paths.error);
          return;
        }
        MaterializedStep(ix, Index(), arts, cmd, paths.value, arts[cmd := paths.value], writable);
        CoveredStep(arts, fs, files, cmd, paths.value);
        arts := arts[cmd := paths.value];
      }
      assert predictions[..|predictions|] == predictions;
      assert forall c :: c in predictions ==> c in arts;
      PlanCompleted(old(Index()), old(files), Index(), files, predictions, HistoryOf(sk),
                    generator, decode, hashes, writable);
      r := Ok(arts);
    }

    /** `plan_and_apply_defenses`: reuse or create a descriptor per prediction,
        write its files, then replace the session's branch set; a failed write
        raises before the branch set is replaced. */
    method PlanAndApplyDefenses(sk: string, predictions: seq<string>, generator: (seq<string>, string) -> string,
                                decode: string -> Option<Defense>, hashes: string -> nat, writable: string -> bool)
      returns (ok: bool)
      modifies this`indexFile, this`files, this`activePredictions
      ensures ok <==> forall c :: c in predictions ==> c in Index() && WritesAll(Index()[c], writable)
      ensures !ok ==> activePredictions == old(activePredictions)
      ensures ok ==> Planned(activePredictions, old(activePredictions), sk, predictions, Index(), files, writable)
      ensures forall c :: c !in predictions || CachedIn(old(Index()), c) ==> Lookup(Index(), c) == Lookup(old(Index()), c)
      ensures old(files).Keys <= files.Keys
      ensures ok <==> PlannedCount(Chosen(old(Index()), predictions, HistoryOf(sk), generator, decode, hashes), writable)
                      == |predictions|
      ensures Applied(old(Index()), old(files), Index(), files,
                      predictions[..Reached(old(Index()), predictions, HistoryOf(sk), generator, decode, hashes, writable)],
                      HistoryOf(sk), generator, decode, hashes, writable)
    {
      var arts := DefendAll(sk, predictions, generator, decode, hashes, writable);
      ok := arts.Ok?;
      if ok {
        PlannedBranches(activePredictions, sk, predictions, arts.value, Index(), files, writable);
        activePredictions := activePredictions[sk := Branches(predictions, arts.value)];
      }
    }

    /** The inner loop of `cleanup_other_branches`: `os.remove` each path. */
    method RemovePaths(ps: seq<string>, removable: string -> bool)
      modifies this`files
      ensures files == old(files) - Removed(Elems(ps), removable)
    {
      for j := 0 to |ps|
        invariant files == old(files) - Removed(Elems(ps[..j]), removable)
      {
        var p := ps[j];
        if p in files && removable(p) {
          files := files - {p};
        }
        ElemsSnoc(ps, j);
        RemovedUnion(Elems(ps[..j]), {p}, removable);
        MinusTwice(old(files), Removed(Elems(ps[..j]), removable), Removed({p}, removable));
      }
      assert ps[..|ps|] == ps;
    }

    /** The outer loop of `cleanup_other_branches` over the commands `cmds`. */
    method RemoveCommands(arts: map<string, seq<string>>, cmds: set<string>, removable: string -> bool)
      modifies this`files
      ensures files == old(files) - Removed(PathsUnder(arts, cmds), removable)
    {
      var pending := cmds * arts.Keys;
      ghost var gone: set<string> := {};
      while pending != {}
        invariant pending <= cmds * arts.Keys
        invariant gone == PathsUnder(arts, cmds - pending)
        invariant files == old(files) - Removed(gone, removable)
        decreases |pending|
      {
        var c :| c in pending;
        ghost var doneCmds := cmds - pending;
        RemovePaths(arts[c], removable);
        PathsUnderAdd(arts, doneCmds, c);
        RemovedUnion(gone, Elems(arts[c]), removable);
        MinusTwice(old(files), Removed(gone, removable), Removed(Elems(arts[c]), removable));
        gone := gone + Elems(arts[c]);
        assert doneCmds + {c} == cmds - (pending - {c});
        pending := pending - {c};
      }
      PathsUnderOutside(arts, cmds, cmds * arts.Keys);
    }

    /** `cleanup_other_branches`: when `actual` was predicted, remove the files of
        every other prediction and keep only its branch. */
    method CleanupOtherBranches(sk: string, actual: string, removable: string -> bool)
      modifies this`files, this`activePredictions
      ensures sk !in old(activePredictions) || actual !in old(activePredictions[sk].predicted) ==>
        files == old(files) && activePredictions == old(activePredictions)
      ensures sk in old(activePredictions) && actual in old(activePredictions[sk].predicted) ==>
        var b := old(activePredictions[sk]);
        activePredictions == old(activePredictions)[sk := Branches([actual], map[actual := BranchOf(b.artifacts, actual)])]
        && files == old(files) - Removed(StalePaths(b, actual), removable)
      ensures activePredictions - {sk} == old(activePredictions) - {sk}
    {
      if sk !in activePredictions {
        return;
      }
      var b := activePredictions[sk];
      if actual !in b.predicted {
        return;
      }
      RemoveCommands(b.artifacts, b.artifacts.Keys - {actual}, removable);
      activePredictions := activePredictions[sk := Branches([actual], map[actual := BranchOf(b.artifacts, actual)])];
    }

    /** The first half of `handle_new_command`: `cleanup_other_branches`. */
    method CommitBranch(sk: string, cmd: string, removable: string -> bool)
      modifies this`files, this`activePredictions
      ensures activePredictions == CommittedBranches(old(activePredictions), sk, cmd)
      ensures files == CommittedFiles(old(activePredictions), old(files), sk, cmd, removable)
    {
      CleanupOtherBranches(sk, cmd, removable);
    }

    /** The second half of `handle_new_command`: extend the history, predict
        from it and plan the new branch set. */
    method ExtendAndPlan(sk: string, cmd: string, oracle: seq<string> -> string,
                         generator: (seq<string>, string) -> string, decode: string -> Option<Defense>,
                         hashes: string -> nat, writable: string -> bool)
      returns (ok: bool)
      modifies this`history, this`historyFile, this`indexFile, this`files, this`activePredictions
      ensures history == old(history)[sk := old(HistoryOf(sk)) + [cmd]] && historyFile == Saved(history)
      ensures var predictions := Predictions(history[sk], oracle);
        (ok <==> forall c :: c in predictions ==> c in Index() && WritesAll(Index()[c], writable))
        && (!ok ==> activePredictions == old(activePredictions))
        && (ok ==> Planned(activePredictions, old(activePredictions), sk, predictions, Index(), files, writable))
        && forall c :: c !in predictions || CachedIn(old(Index()), c) ==> Lookup(Index(), c) == Lookup(old(Index()), c)
      ensures old(files).Keys <= files.Keys
      ensures var hist := history[sk];
        var predictions := Predictions(hist, oracle);
        (ok <==> PlannedCount(Chosen(old(Index()), predictions, hist, generator, decode, hashes), writable) == |predictions|)
        && Applied(old(Index()), old(files), Index(), files,
                   predictions[..Reached(old(Index()), predictions, hist, generator, decode, hashes, writable)],
                   hist, generator, decode, hashes, writable)
    {
      UpdateHistory(sk, cmd);
      assert HistoryOf(sk) == history[sk];
      var predictions := Predictions(HistoryOf(sk), oracle);
      ok := PlanAndApplyDefenses(sk, predictions, generator, decode, hashes, writable);
    }

    /** `handle_new_command` for one log entry; `ok` is false when it raised,
        which `main` reports before reading the next entry. */
    method HandleNewCommand(e: LogEntry, oracle: seq<string> -> string, generator: (seq<string>, string) -> string,
                            decode: string -> Option<Defense>, hashes: string -> nat,
                            writable: string -> bool, removable: string -> bool)
      returns (ok: bool)
      modifies this`history, this`historyFile, this`indexFile, this`files, this`activePredictions
      ensures Command(e) == "" ==> ok && unchanged(this)
      ensures Command(e) != "" ==>
        var sk, cmd := MakeSessionKey(e), Command(e);
        history == old(history)[sk := old(HistoryOf(sk)) + [cmd]] && historyFile == Saved(history)
      ensures Command(e) != "" ==>
        var sk, cmd := MakeSessionKey(e), Command(e);
        var committed := CommittedBranches(old(activePredictions), sk, cmd);
        var predictions := Predictions(HistoryOf(sk), oracle);
        (ok <==> forall c :: c in predictions ==> c in Index() && WritesAll(Index()[c], writable))
        && (!ok ==> activePredictions == committed)
        && (ok ==> Planned(activePredictions, committed, sk, predictions, Index(), files, writable))
        && (forall c :: c !in predictions || CachedIn(old(Index()), c) ==> Lookup(Index(), c) == Lookup(old(Index()), c))
        && CommittedFiles(old(activePredictions), old(files), sk, cmd, removable).Keys <= files.Keys
      ensures Command(e) != "" ==>
        var sk, cmd := MakeSessionKey(e), Command(e);
        var hist := HistoryOf(sk);
        var predictions := Predictions(hist, oracle);
        var fs0 := CommittedFiles(old(activePredictions), old(files), sk, cmd, removable);
        (ok <==> PlannedCount(Chosen(old(Index()), predictions, hist, generator, decode, hashes), writable) == |predictions|)
        && Applied(old(Index()), fs0, Index(), files,
                   predictions[..Reached(old(Index()), predictions, hist, generator, decode, hashes, writable)],
                   hist, generator, decode, hashes, writable)
    {
      var sk := MakeSessionKey(e);
      var cmd := Command(e);
      if cmd == "" {
        return true;
      }
      CommitBranch(sk, cmd, removable);
      ok := ExtendAndPlan(sk, cmd, oracle, generator, decode, hashes, writable);
    }
  }

  /** `actual` is one of the session's predictions: the commit case. */
  predicate Hit(ap: map<string, Branches>, sk: string, actual: string) {
    sk in ap && actual in ap[sk].predicted
  }

  /** The branch sets after `actual` was logged: on a hit the session keeps
      only the branch of `actual`. */
  function CommittedBranches(ap: map<string, Branches>, sk: string, actual: string): map<string, Branches> {
    if Hit(ap, sk, actual) then ap[sk := Branches([actual], map[actual := BranchOf(ap[sk].artifacts, actual)])]
    else ap
  }

  /** The files after `actual` was logged: on a hit the removable files of
      every other prediction are deleted. */
  function CommittedFiles(ap: map<string, Branches>, fs: map<string, string>, sk: string, actual: string,
                          removable: string -> bool): map<string, string>
  {
    if Hit(ap, sk, actual) then fs - Removed(StalePaths(ap[sk], actual), removable) else fs
  }

  /** The branch sets `ap1` are `ap0` with the session's set replaced by the
      predictions, each with the written targets of its indexed descriptor. */
  ghost predicate Planned(ap1: map<string, Branches>, ap0: map<string, Branches>, sk: string,
                          predictions: seq<string>, ix: map<string, Defense>, fs: map<string, string>,
                          writable: string -> bool)
  {
    sk in ap1 && ap1[sk].predicted == predictions
    && ap1 - {sk} == ap0 - {sk}
    && ap1[sk].artifacts.Keys == Elems(predictions)
    && (forall c :: c in predictions ==> Materialized(ix, c, ap1[sk].artifacts[c], writable))
    && (forall c, p :: c in predictions && p in ap1[sk].artifacts[c] ==> p in fs)
  }

  /** Replacing the session's branch set by a complete prediction loop's
      result plans it. */
  lemma PlannedBranches(ap: map<string, Branches>, sk: string, predictions: seq<string>,
                        arts: map<string, seq<string>>, ix: map<string, Defense>, fs: map<string, string>,
                        writable: string -> bool)
    requires arts.Keys == Elems(predictions)
    requires forall c :: c in arts ==> Materialized(ix, c, arts[c], writable)
    requires forall c, p :: c in arts && p in arts[c] ==> p in fs
    ensures Planned(ap[sk := Branches(predictions, arts)], ap, sk, predictions, ix, fs, writable)
  {
    var ap1 := ap[sk := Branches(predictions, arts)];
    assert ap1 - {sk} == ap - {sk};
  }

  function Lookup(ix: map<string, Defense>, c: string): Option<Defense> {
    if c in ix then Some(ix[c]) else None
  }

  predicate CachedIn(ix: map<string, Defense>, c: string) {
    c in ix && Present(ix[c])
  }

  /** The index entry of `c` exists, is written through, and `paths` is what
      it writes. */
  predicate Materialized(ix: map<string, Defense>, c: string, paths: seq<string>, writable: string -> bool) {
    c in ix && WritesAll(ix[c], writable) && paths == Targets(ArtifactsOf(ix[c]))
  }

  lemma LookupStep(ix0: map<string, Defense>, ix1: map<string, Defense>, ix2: map<string, Defense>,
                   cmds: set<string>, cmd: string)
    requires forall c :: c !in cmds || CachedIn(ix0, c) ==> Lookup(ix1, c) == Lookup(ix0, c)
    requires cmd in ix2 && ix2 == ix1[cmd := ix2[cmd]]
    requires CachedIn(ix1, cmd) ==> ix2 == ix1
    ensures forall c :: c !in cmds + {cmd} || CachedIn(ix0, c) ==> Lookup(ix2, c) == Lookup(ix0, c)
  {
    forall c | c !in cmds + {cmd} || CachedIn(ix0, c)
      ensures Lookup(ix2, c) == Lookup(ix0, c)
    {
      if c == cmd {
        assert Lookup(ix1, c) == Lookup(ix0, c);
      }
    }
  }

  /** Every path a branch lists is on disk. */
  predicate Covered(arts: map<string, seq<string>>, fs: map<string, string>) {
    forall c, p :: c in arts && p in arts[c] ==> p in fs
  }

  /** Adding a branch whose paths were just written keeps every listed path
      on disk, and adds its command to the keys. */
  lemma CoveredStep(arts: map<string, seq<string>>, fs0: map<string, string>, fs1: map<string, string>,
                    cmd: string, paths: seq<string>)
    requires Covered(arts, fs0)
    requires fs0.Keys <= fs1.Keys && fs1.Keys == fs0.Keys + Elems(paths)
    ensures Covered(arts[cmd := paths], fs1)
    ensures arts[cmd := paths].Keys == arts.Keys + {cmd}
  {
  }

  lemma MaterializedStep(ix1: map<string, Defense>, ix2: map<string, Defense>, arts: map<string, seq<string>>,
                         cmd: string, paths: seq<string>, arts2: map<string, seq<string>>, writable: string -> bool)
    requires forall c :: c in arts ==> Materialized(ix1, c, arts[c], writable)
    requires Materialized(ix2, cmd, paths, writable) && ix2 == ix1[cmd := ix2[cmd]]
    requires arts2 == arts[cmd := paths]
    ensures forall c :: c in arts2 ==> Materialized(ix2, c, arts2[c], writable)
  {
  }
}
