/** The defender of the `deception` shell (deception/defender.py): instead of
    writing files it injects each predicted command's output and artifacts
    into the scenario document the shell reads (`command_cache`,
    `static_files`, `filesystem`), and on every new command it removes the
    branches that were not taken and resets the session's branch set. */
module ScenarioDefender {
  import opened Outcomes
  import opened PyText
  import opened PyPath
  import opened Seqs
  import opened JsonStore
  import opened HoneypotLog

  const PRED_K: nat := 5
  const CONTEXT_LEN: nat := 5

  /** `{"path": ..., "content": ...}` of a generated defence; `None` is a
      missing or null key. Values of other JSON types are not represented. */
  datatype ArtifactSpec = ArtifactSpec(path: Option<string>, content: Option<string>)

  /** The JSON object the generator returns for one predicted command. */
  datatype DefenseData = DefenseData(terminalOutput: Option<string>, artifacts: seq<ArtifactSpec>)

  /** The three sections of the scenario document the defender touches;
      `None` is a section the document does not have yet. */
  datatype Scenario = Scenario(
    commandCache: Option<map<string, map<string, string>>>,
    staticFiles: Option<map<string, string>>,
    filesystem: Option<map<string, seq<string>>>)

  /** `active_predictions[session]`: the `{}` left by a cleanup, or the
      predicted commands with the defence used for each. */
  datatype BranchState = Reset | Planned(predicted: seq<string>, defenseData: map<string, DefenseData>)

  /** `load_scenario()`: a missing or unreadable file reads as `{}`. */
  const EMPTY_SCENARIO := Scenario(None, None, None)

  function LoadScenario(f: Stored<Scenario>): Scenario {
    Load(f, EMPTY_SCENARIO)
  }

  /** Views of the document that read a missing section as empty. */
  function CacheOf(sc: Scenario): map<string, map<string, string>> {
    if sc.commandCache.Some? then sc.commandCache.value else map[]
  }

  function CacheAt(sc: Scenario, cwd: string): map<string, string> {
    var cc := CacheOf(sc);
    if cwd in cc then cc[cwd] else map[]
  }

  function StaticOf(sc: Scenario): map<string, string> {
    if sc.staticFiles.Some? then sc.staticFiles.value else map[]
  }

  function FsOf(sc: Scenario): map<string, seq<string>> {
    if sc.filesystem.Some? then sc.filesystem.value else map[]
  }

  /** `filesystem[dir]`, or no names. */
  function Listing(sc: Scenario, dir: string): seq<string> {
    var fs := FsOf(sc);
    if dir in fs then fs[dir] else []
  }

  // ---------------------------------------------------------------------
  // inject_prediction_into_scenario
  // ---------------------------------------------------------------------

  /** The path an artifact is injected at: absolute paths as given, relative
      ones joined to the working directory with `\` turned into `/`. */
  function InjectPath(cwd: string, path: string): (r: string)
    ensures IsAbs(path) ==> r == path
  {
    if IsAbs(path) then path else Replace(JoinPath(cwd, path), "\\", "/")
  }

  /** `if path and content:` */
  predicate Injectable(a: ArtifactSpec) {
    a.path.Some? && a.path.value != "" && a.content.Some? && a.content.value != ""
  }

  function Target(cwd: string, a: ArtifactSpec): string {
    InjectPath(cwd, GetOr(a.path, ""))
  }

  predicate HasOutput(d: DefenseData) {
    d.terminalOutput.Some? && d.terminalOutput.value != ""
  }

  /** `if cmd_output:` store the output under `command_cache[cwd][command]`. */
  function InjectOutput(sc: Scenario, cwd: string, command: string, d: DefenseData): Scenario {
    if HasOutput(d) then
      sc.(commandCache := Some(CacheOf(sc)[cwd := CacheAt(sc, cwd)[command := d.terminalOutput.value]]))
    else sc
  }

  /** `fname` appended to a directory listing unless already listed. */
  function AddName(names: seq<string>, name: string): (r: seq<string>)
    ensures names <= r
    ensures Elems(r) == Elems(names) + {name}
    ensures Distinct(names) ==> Distinct(r)
  {
    if name in names then names else names + [name]
  }

  /** One injected file: its content under `static_files[p]`, its base name in
      the listing of its directory. */
  function PutFile(sc: Scenario, p: string, content: string): (r: Scenario)
    ensures r.commandCache == sc.commandCache
    ensures StaticOf(r) == StaticOf(sc)[p := content]
  {
    var dir := DirName(p);
    sc.(staticFiles := Some(StaticOf(sc)[p := content]),
        filesystem := Some(FsOf(sc)[dir := AddName(Listing(sc, dir), BaseName(p))]))
  }

  lemma PutFileListing(sc: Scenario, p: string, content: string, dir: string)
    ensures Listing(PutFile(sc, p, content), dir)
         == if dir == DirName(p) then AddName(Listing(sc, dir), BaseName(p)) else Listing(sc, dir)
  {
  }

  function InjectArtifact(sc: Scenario, cwd: string, a: ArtifactSpec): Scenario {
    if Injectable(a) then PutFile(sc, Target(cwd, a), a.content.value) else sc
  }

  /** The artifact loop of `inject_prediction_into_scenario`, over `arts` in order. */
  function InjectArtifacts(sc: Scenario, cwd: string, arts: seq<ArtifactSpec>): Scenario
    decreases |arts|
  {
    if arts == [] then sc
    else InjectArtifact(InjectArtifacts(sc, cwd, arts[..|arts| - 1]), cwd, arts[|arts| - 1])
  }

  lemma InjectArtifactsStep(sc: Scenario, cwd: string, arts: seq<ArtifactSpec>, i: nat)
    requires i < |arts|
    ensures InjectArtifacts(sc, cwd, arts[..i + 1]) == InjectArtifact(InjectArtifacts(sc, cwd, arts[..i]), cwd, arts[i])
  {
    assert arts[..i + 1][..i] == arts[..i];
  }

  /** The document `inject_prediction_into_scenario` saves. */
  function Injected(sc: Scenario, cwd: string, command: string, d: DefenseData): Scenario {
    InjectArtifacts(InjectOutput(sc, cwd, command, d), cwd, d.artifacts)
  }

  /** The paths the injectable artifacts of `arts` are written at. */
  ghost function InjectedPaths(cwd: string, arts: seq<ArtifactSpec>): set<string> {
    Image(arts, Injectable, (a: ArtifactSpec) => Target(cwd, a))
  }

  /** The file names the injectable artifacts of `arts` add to listing `dir`. */
  ghost function InjectedNames(cwd: string, arts: seq<ArtifactSpec>, dir: string): set<string> {
    Image(arts, (a: ArtifactSpec) => Injectable(a) && DirName(Target(cwd, a)) == dir,
          (a: ArtifactSpec) => BaseName(Target(cwd, a)))
  }

  /** Artifacts never touch the command cache. */
  lemma {:induction false} InjectArtifactsKeepsCache(sc: Scenario, cwd: string, arts: seq<ArtifactSpec>)
    ensures InjectArtifacts(sc, cwd, arts).commandCache == sc.commandCache
    decreases |arts|
  {
    if arts != [] {
      InjectArtifactsKeepsCache(sc, cwd, arts[..|arts| - 1]);
    }
  }

  /** A truthy `terminal_output` becomes `command_cache[cwd][command]`, the
      rest of the cache is kept, and a falsy output leaves the cache as it was. */
  lemma InjectedCache(sc: Scenario, cwd: string, command: string, d: DefenseData)
    ensures var r := Injected(sc, cwd, command, d);
      if HasOutput(d) then
        r.commandCache.Some? && CacheOf(r) == CacheOf(sc)[cwd := CacheAt(sc, cwd)[command := d.terminalOutput.value]]
        && CacheAt(r, cwd) == CacheAt(sc, cwd)[command := d.terminalOutput.value]
      else r.commandCache == sc.commandCache
  {
    InjectArtifactsKeepsCache(InjectOutput(sc, cwd, command, d), cwd, d.artifacts);
  }

  lemma InjectArtifactStatic(sc: Scenario, cwd: string, a: ArtifactSpec)
    ensures StaticOf(InjectArtifact(sc, cwd, a))
         == if Injectable(a) then StaticOf(sc)[Target(cwd, a) := a.content.value] else StaticOf(sc)
  {
  }

  /** `static_files` gains exactly the paths of the artifacts that have both a
      path and a content (an artifact with empty content is never injected),
      and the old entries are kept unless overwritten. */
  lemma {:induction false} InjectedStatic(sc: Scenario, cwd: string, arts: seq<ArtifactSpec>)
    ensures var r := InjectArtifacts(sc, cwd, arts);
      StaticOf(r).Keys == StaticOf(sc).Keys + InjectedPaths(cwd, arts)
      && forall p :: p in StaticOf(sc) && p !in InjectedPaths(cwd, arts) ==> StaticOf(r)[p] == StaticOf(sc)[p]
    decreases |arts|
  {
    if arts != [] {
      var init, a := arts[..|arts| - 1], arts[|arts| - 1];
      InjectedStatic(sc, cwd, init);
      ImageSnoc(arts, Injectable, (a: ArtifactSpec) => Target(cwd, a));
      InjectArtifactStatic(InjectArtifacts(sc, cwd, init), cwd, a);
    }
  }

  /** Each injected path holds the content of the last artifact written there. */
  lemma {:induction false} InjectedContent(sc: Scenario, cwd: string, arts: seq<ArtifactSpec>, k: nat)
    requires k < |arts| && Injectable(arts[k])
    requires forall j :: k < j < |arts| && Injectable(arts[j]) ==> Target(cwd, arts[j]) != Target(cwd, arts[k])
    ensures var r := InjectArtifacts(sc, cwd, arts);
      Target(cwd, arts[k]) in StaticOf(r) && StaticOf(r)[Target(cwd, arts[k])] == arts[k].content.value
    decreases |arts|
  {
    var init, a := arts[..|arts| - 1], arts[|arts| - 1];
    InjectArtifactStatic(InjectArtifacts(sc, cwd, init), cwd, a);
    if k < |init| {
      assert init[k] == arts[k];
      forall j | k < j < |init| && Injectable(init[j])
        ensures Target(cwd, init[j]) != Target(cwd, init[k])
      {
        assert init[j] == arts[j];
      }
      InjectedContent(sc, cwd, init, k);
    }
  }

  /** Each listing keeps its names, in order, at its front. */
  lemma {:induction false} InjectedListingPrefix(sc: Scenario, cwd: string, arts: seq<ArtifactSpec>, dir: string)
    ensures Listing(sc, dir) <= Listing(InjectArtifacts(sc, cwd, arts), dir)
    decreases |arts|
  {
    if arts != [] {
      var init, a := arts[..|arts| - 1], arts[|arts| - 1];
      InjectedListingPrefix(sc, cwd, init, dir);
      if Injectable(a) {
        PutFileListing(InjectArtifacts(sc, cwd, init), Target(cwd, a), a.content.value, dir);
      }
    }
  }

  /** Each listing gains exactly the base names of the artifacts injected
      into that directory. */
  lemma {:induction false} InjectedListingNames(sc: Scenario, cwd: string, arts: seq<ArtifactSpec>, dir: string)
    ensures Elems(Listing(InjectArtifacts(sc, cwd, arts), dir)) == Elems(Listing(sc, dir)) + InjectedNames(cwd, arts, dir)
    decreases |arts|
  {
    if arts != [] {
      var init, a := arts[..|arts| - 1], arts[|arts| - 1];
      InjectedListingNames(sc, cwd, init, dir);
      if Injectable(a) {
        PutFileListing(InjectArtifacts(sc, cwd, init), Target(cwd, a), a.content.value, dir);
      }
      ImageSnoc(arts, (a: ArtifactSpec) => Injectable(a) && DirName(Target(cwd, a)) == dir,
                (a: ArtifactSpec) => BaseName(Target(cwd, a)));
    }
  }

  /** Injection never lists a name twice in a listing that had no repeats. */
  lemma {:induction false} InjectedListingDistinct(sc: Scenario, cwd: string, arts: seq<ArtifactSpec>, dir: string)
    requires Distinct(Listing(sc, dir))
    ensures Distinct(Listing(InjectArtifacts(sc, cwd, arts), dir))
    decreases |arts|
  {
    if arts != [] {
      var init, a := arts[..|arts| - 1], arts[|arts| - 1];
      InjectedListingDistinct(sc, cwd, init, dir);
      if Injectable(a) {
        PutFileListing(InjectArtifacts(sc, cwd, init), Target(cwd, a), a.content.value, dir);
      }
    }
  }

  // ---------------------------------------------------------------------
  // remove_prediction_from_scenario
  // ---------------------------------------------------------------------

  /** The path an artifact is removed from: as `InjectPath`, but without
      turning `\` into `/`. */
  function RemovePath(cwd: string, path: string): (r: string)
    ensures IsAbs(path) ==> r == path
  {
    if IsAbs(path) then path else JoinPath(cwd, path)
  }

  /** `if path:` */
  predicate HasPath(a: ArtifactSpec) {
    a.path.Some? && a.path.value != ""
  }

  function RemoveTarget(cwd: string, a: ArtifactSpec): string {
    RemovePath(cwd, GetOr(a.path, ""))
  }

  /** Injection and removal agree on an artifact's path exactly when it is
      absolute or its joined form has no backslash. */
  lemma InjectRemovePathsAgree(cwd: string, path: string)
    ensures InjectPath(cwd, path) == RemovePath(cwd, path) <==> IsAbs(path) || '\\' !in JoinPath(cwd, path)
  {
    if !IsAbs(path) {
      var j := JoinPath(cwd, path);
      assert "\\" == ['\\'] && "/" == ['/'];
      ReplaceChar(j, '\\', '/');
      if '\\' in j {
        var i :| 0 <= i < |j| && j[i] == '\\';
        assert InjectPath(cwd, path)[i] == '/';
      } else {
        assert InjectPath(cwd, path) == j;
      }
    }
  }

  /** `list.remove(x)` when `x` is listed: the first occurrence goes. */
  function RemoveFirst(names: seq<string>, x: string): (r: seq<string>)
    requires x in names
    ensures multiset(r) == multiset(names) - multiset{x}
  {
    assert names == [names[0]] + names[1..];
    if names[0] == x then names[1..]
    else [names[0]] + RemoveFirst(names[1..], x)
  }

  /** The document part of one removal step together with its `changed` flag. */
  datatype Step = Step(doc: Scenario, changed: bool)

  function RemoveOutput(sc: Scenario, cwd: string, command: string): (r: Step)
    ensures !r.changed ==> r.doc == sc
  {
    if sc.commandCache.Some? && cwd in sc.commandCache.value && command in sc.commandCache.value[cwd] then
      var cc := sc.commandCache.value;
      Step(sc.(commandCache := Some(cc[cwd := cc[cwd] - {command}])), true)
    else Step(sc, false)
  }

  /** One removed file: out of `static_files`, and one occurrence of its base
      name out of its directory's listing. */
  function DropFile(sc: Scenario, p: string): (r: Step)
    ensures r.doc.commandCache == sc.commandCache
    ensures r.doc.staticFiles.Some? == sc.staticFiles.Some? && StaticOf(r.doc) == StaticOf(sc) - {p}
    ensures !r.changed ==> r.doc == sc
  {
    var s1 :=
      if sc.staticFiles.Some? && p in sc.staticFiles.value
      then Step(sc.(staticFiles := Some(sc.staticFiles.value - {p})), true)
      else Step(sc, false);
    var dir, name := DirName(p), BaseName(p);
    var fs := s1.doc.filesystem;
    if fs.Some? && dir in fs.value && name in fs.value[dir]
    then Step(s1.doc.(filesystem := Some(fs.value[dir := RemoveFirst(fs.value[dir], name)])), true)
    else s1
  }

  lemma DropFileListing(sc: Scenario, p: string, dir: string)
    ensures var r := DropFile(sc, p).doc;
      FsOf(r).Keys == FsOf(sc).Keys
      && multiset(Listing(r, dir))
         == multiset(Listing(sc, dir)) - (if dir == DirName(p) then multiset{BaseName(p)} else multiset{})
  {
    var name := BaseName(p);
    if dir == DirName(p) && name !in Listing(sc, dir) {
      assert multiset(Listing(sc, dir))[name] == 0;
      assert multiset(Listing(sc, dir)) - multiset{name} == multiset(Listing(sc, dir));
    }
  }

  function RemoveArtifact(sc: Scenario, cwd: string, a: ArtifactSpec): Step {
    if HasPath(a) then DropFile(sc, RemoveTarget(cwd, a)) else Step(sc, false)
  }

  /** The artifact loop of `remove_prediction_from_scenario`, flag included. */
  function RemoveArtifacts(st: Step, cwd: string, arts: seq<ArtifactSpec>): Step
    decreases |arts|
  {
    if arts == [] then st
    else
      var prev := RemoveArtifacts(st, cwd, arts[..|arts| - 1]);
      var s := RemoveArtifact(prev.doc, cwd, arts[|arts| - 1]);
      Step(s.doc, prev.changed || s.changed)
  }

  lemma RemoveArtifactsStep(st: Step, cwd: string, arts: seq<ArtifactSpec>, i: nat)
    requires i < |arts|
    ensures var prev := RemoveArtifacts(st, cwd, arts[..i]);
      var s := RemoveArtifact(prev.doc, cwd, arts[i]);
      RemoveArtifacts(st, cwd, arts[..i + 1]) == Step(s.doc, prev.changed || s.changed)
  {
    assert arts[..i + 1][..i] == arts[..i];
  }

  /** What `remove_prediction_from_scenario` computes before deciding to save. */
  function Removal(sc: Scenario, cwd: string, command: string, d: DefenseData): Step {
    RemoveArtifacts(RemoveOutput(sc, cwd, command), cwd, d.artifacts)
  }

  /** The paths a removal deletes from `static_files`. */
  ghost function RemovedPaths(cwd: string, arts: seq<ArtifactSpec>): set<string> {
    Image(arts, HasPath, (a: ArtifactSpec) => RemoveTarget(cwd, a))
  }

  /** The base names a removal takes out of listing `dir`, one per artifact. */
  function RemovedNames(cwd: string, arts: seq<ArtifactSpec>, dir: string): multiset<string>
    decreases |arts|
  {
    if arts == [] then multiset{}
    else
      var a := arts[|arts| - 1];
      RemovedNames(cwd, arts[..|arts| - 1], dir)
      + if HasPath(a) && DirName(RemoveTarget(cwd, a)) == dir then multiset{BaseName(RemoveTarget(cwd, a))} else multiset{}
  }

  /** The artifact loop of a removal leaves the command cache alone. */
  lemma {:induction false} RemovedKeepsCache(st: Step, cwd: string, arts: seq<ArtifactSpec>)
    ensures RemoveArtifacts(st, cwd, arts).doc.commandCache == st.doc.commandCache
    decreases |arts|
  {
    if arts != [] {
      RemovedKeepsCache(st, cwd, arts[..|arts| - 1]);
    }
  }

  /** `static_files` loses the artifacts' removal paths and nothing else, and
      is neither created nor dropped. */
  lemma {:induction false} RemovedStatic(st: Step, cwd: string, arts: seq<ArtifactSpec>)
    ensures var r := RemoveArtifacts(st, cwd, arts).doc;
      r.staticFiles.Some? == st.doc.staticFiles.Some?
      && StaticOf(r) == StaticOf(st.doc) - RemovedPaths(cwd, arts)
    decreases |arts|
  {
    if arts != [] {
      var init, a := arts[..|arts| - 1], arts[|arts| - 1];
      RemovedStatic(st, cwd, init);
      ImageSnoc(arts, HasPath, (a: ArtifactSpec) => RemoveTarget(cwd, a));
      if HasPath(a) {
        MinusTwice(StaticOf(st.doc), RemovedPaths(cwd, init), {RemoveTarget(cwd, a)});
      }
    }
  }

  lemma MinusTwice<K, V>(m: map<K, V>, a: set<K>, b: set<K>)
    ensures m - a - b == m - (a + b)
  {
  }

  /** The flag, once set, stays set; when it was never set the document is
      the one loaded, so skipping the save loses nothing. */
  lemma {:induction false} RemovedFlag(st: Step, cwd: string, arts: seq<ArtifactSpec>)
    ensures var r := RemoveArtifacts(st, cwd, arts);
      (st.changed ==> r.changed) && (!r.changed ==> r.doc == st.doc)
    decreases |arts|
  {
    if arts != [] {
      RemovedFlag(st, cwd, arts[..|arts| - 1]);
    }
  }

  /** Every listing loses one occurrence of each removed base name (as far as
      it has them), and no directory is added or dropped. */
  lemma {:induction false} RemovedListing(st: Step, cwd: string, arts: seq<ArtifactSpec>, dir: string)
    ensures var r := RemoveArtifacts(st, cwd, arts);
      FsOf(r.doc).Keys == FsOf(st.doc).Keys
      && multiset(Listing(r.doc, dir)) == multiset(Listing(st.doc, dir)) - RemovedNames(cwd, arts, dir)
    decreases |arts|
  {
    if arts != [] {
      var init, a := arts[..|arts| - 1], arts[|arts| - 1];
      RemovedListing(st, cwd, init, dir);
      if HasPath(a) {
        DropFileListing(RemoveArtifacts(st, cwd, init).doc, RemoveTarget(cwd, a), dir);
      }
    }
  }

  /** The whole removal: the command leaves `command_cache[cwd]` (no other
      cache entry changes), the artifacts' paths leave `static_files`, and an
      unchanged flag means an unchanged document. */
  lemma RemovalEffect(sc: Scenario, cwd: string, command: string, d: DefenseData)
    ensures var r := Removal(sc, cwd, command, d);
      r.doc.commandCache.Some? == sc.commandCache.Some?
      && CacheOf(r.doc).Keys == CacheOf(sc).Keys
      && CacheAt(r.doc, cwd) == CacheAt(sc, cwd) - {command}
      && (forall w :: w in CacheOf(sc) && w != cwd ==> CacheOf(r.doc)[w] == CacheOf(sc)[w])
      && StaticOf(r.doc) == StaticOf(sc) - RemovedPaths(cwd, d.artifacts)
      && (!r.changed ==> r.doc == sc)
  {
    var st := RemoveOutput(sc, cwd, command);
    RemovedKeepsCache(st, cwd, d.artifacts);
    RemovedStatic(st, cwd, d.artifacts);
    RemovedFlag(st, cwd, d.artifacts);
  }

  /** Injecting an artifact whose relative path joins to one with a backslash
      and then removing the same defence leaves the injected file behind. */
  lemma InjectedFileSurvivesRemoval(sc: Scenario, cwd: string, command: string, a: ArtifactSpec)
    requires Injectable(a) && !IsAbs(a.path.value) && '\\' in JoinPath(cwd, a.path.value)
    ensures var d := DefenseData(None, [a]);
      Target(cwd, a) in StaticOf(Removal(Injected(sc, cwd, command, d), cwd, command, d).doc)
  {
    var d := DefenseData(None, [a]);
    InjectedContent(InjectOutput(sc, cwd, command, d), cwd, d.artifacts, 0);
    var inj := Injected(sc, cwd, command, d);
    assert Target(cwd, a) in StaticOf(inj);
    RemovalEffect(inj, cwd, command, d);
    ImageSnoc(d.artifacts, HasPath, (x: ArtifactSpec) => RemoveTarget(cwd, x));
    assert d.artifacts[..0] == [];
    assert RemovedPaths(cwd, d.artifacts) == {RemoveTarget(cwd, a)};
    InjectRemovePathsAgree(cwd, a.path.value);
  }

  // ---------------------------------------------------------------------
  // create_defense_for_predicted_command, predict_next_commands
  // ---------------------------------------------------------------------

  /** `re.sub(r"```json|```", "", s)`: scanning left to right, the longer
      alternative is tried first at each position. */
  function StripFences(s: string): (r: string)
    ensures |r| <= |s|
    decreases |s|
  {
    if s == [] then []
    else if "```json" <= s then StripFences(s[7..])
    else if "```" <= s then StripFences(s[3..])
    else [s[0]] + StripFences(s[1..])
  }

  /** `clean_text[start:end]` with Python's clamping: empty when `end <= start`. */
  function Slice(s: string, start: nat, end: nat): (r: string)
    requires start <= |s| && end <= |s|
    ensures |r| == if end <= start then 0 else end - start
    ensures forall i :: 0 <= i < |r| ==> r[i] == s[start + i]
  {
    if end <= start then "" else s[start..end]
  }

  /** The cut from the first `{` to just after the last `}`, or the whole
      text when there is no `{`. `rfind` returns -1 when there is no `}`, so
      `end` is never -1 and the `end != -1` test always holds. */
  function Cut(clean: string): string {
    var start := Find(clean, "{");
    var end := RFindChar(clean, '}') + 1;
    if start != -1 then Slice(clean, start, end) else clean
  }

  /** The text handed to `json.loads`: fences removed, stripped, then cut. */
  function ExtractJson(raw: string): string {
    Cut(Strip(StripFences(raw)))
  }

  /** With no `{` the cleaned text is handed over whole. */
  lemma CutWithoutBrace(clean: string)
    requires Find(clean, "{") == -1
    ensures Cut(clean) == clean
  {
  }

  /** Otherwise the cut is empty exactly when no `}` follows the first `{`,
      and when not empty it starts with that `{` and ends with the last `}`. */
  lemma CutWithBrace(clean: string)
    requires Find(clean, "{") != -1
    ensures var r := Cut(clean);
      (r == "" <==> RFindChar(clean, '}') < Find(clean, "{"))
      && (r != "" ==> r[0] == '{' && r[|r| - 1] == '}' && r == clean[Find(clean, "{")..RFindChar(clean, '}') + 1])
  {
    var start, last := Find(clean, "{"), RFindChar(clean, '}');
    assert clean[start..start + 1] == "{";
    assert clean[start] == '{';
    if start < last + 1 {
      assert clean[last] == '}';
    }
  }

  /** `create_defense_for_predicted_command`: the generator's text for
      (`command`, `cwd`) decoded, or the error-output fallback when
      `json.loads` rejects it. */
  function CreateDefense(command: string, cwd: string, generator: (string, string) -> string,
                         decode: string -> Option<DefenseData>): DefenseData
  {
    match decode(ExtractJson(generator(command, cwd)))
    case Some(d) => d
    case None => DefenseData(Some("Error: command '" + command + "' execution failed."), [])
  }

  /** A parsed response is used as is, whatever it holds; an unparseable one
      gives an error output for the command and no artifacts. */
  lemma CreateDefenseCases(command: string, cwd: string, generator: (string, string) -> string,
                           decode: string -> Option<DefenseData>)
    ensures var parsed := decode(ExtractJson(generator(command, cwd)));
      var r := CreateDefense(command, cwd, generator, decode);
      (parsed.Some? ==> r == parsed.value)
      && (parsed.None? ==>
            HasOutput(r) && r.artifacts == [] && r.terminalOutput.value == "Error: command '" + command + "' execution failed.")
  {
  }

  const DEFAULT_PREDICTIONS: seq<string> := ["ls", "id", "whoami"]

  /** `predict_next_commands`: `oracle` stands for retrieval plus the model
      applied to the last `CONTEXT_LEN` commands. */
  function Predictions(hist: seq<string>, oracle: seq<string> -> string): seq<string> {
    if hist == [] then DEFAULT_PREDICTIONS
    else
      var raw := oracle(Last(hist, CONTEXT_LEN));
      if raw == "" then ["ls"] else Take(NonBlankLines(raw), PRED_K)
  }

  /** The three fixed answers, and otherwise at most `PRED_K` stripped
      non-blank lines of the response, in order. */
  lemma PredictionsShape(hist: seq<string>, oracle: seq<string> -> string)
    ensures hist == [] ==> Predictions(hist, oracle) == ["ls", "id", "whoami"]
    ensures hist != [] && oracle(Last(hist, CONTEXT_LEN)) == "" ==> Predictions(hist, oracle) == ["ls"]
    ensures hist != [] && oracle(Last(hist, CONTEXT_LEN)) != "" ==>
      var r := Predictions(hist, oracle);
      var lines := NonBlankLines(oracle(Last(hist, CONTEXT_LEN)));
      |r| <= PRED_K && r <= lines && |r| == (if |lines| < PRED_K then |lines| else PRED_K)
  {
  }

  /** A response made only of white space predicts nothing at all: unlike the
      empty response it does not fall back to `["ls"]`. */
  lemma BlankResponsePredictsNothing(hist: seq<string>, oracle: seq<string> -> string)
    requires hist != [] && oracle(Last(hist, CONTEXT_LEN)) != "" && AllSpace(oracle(Last(hist, CONTEXT_LEN)))
    ensures Predictions(hist, oracle) == []
  {
    NonBlankLinesOfBlank(oracle(Last(hist, CONTEXT_LEN)));
  }

  // ---------------------------------------------------------------------
  // plan_and_apply_defenses, cleanup_other_branches
  // ---------------------------------------------------------------------

  /** The defence the plan loop uses for `c`: the indexed one, or a new one. */
  function DefenseFor(ix: map<string, DefenseData>, c: string, cwd: string,
                      generator: (string, string) -> string, decode: string -> Option<DefenseData>): DefenseData {
    if c in ix then ix[c] else CreateDefense(c, cwd, generator, decode)
  }

  /** The defence index after the plan loop has handled `cmds`. */
  function PlanIndexOf(ix: map<string, DefenseData>, cwd: string, cmds: seq<string>,
                       generator: (string, string) -> string, decode: string -> Option<DefenseData>): (r: map<string, DefenseData>)
    ensures cmds != [] ==> cmds[|cmds| - 1] in r
    decreases |cmds|
  {
    if cmds == [] then ix
    else
      var prev := PlanIndexOf(ix, cwd, cmds[..|cmds| - 1], generator, decode);
      var c := cmds[|cmds| - 1];
      prev[c := DefenseFor(prev, c, cwd, generator, decode)]
  }

  /** The scenario file after the plan loop: each command's defence injected
      in turn, each injection loading and saving the file. */
  function PlanScenario(ix: map<string, DefenseData>, f: Stored<Scenario>, cwd: string, cmds: seq<string>,
                        generator: (string, string) -> string, decode: string -> Option<DefenseData>): Stored<Scenario>
    decreases |cmds|
  {
    if cmds == [] then f
    else
      var prev := PlanScenario(ix, f, cwd, cmds[..|cmds| - 1], generator, decode);
      var c := cmds[|cmds| - 1];
      Saved(Injected(LoadScenario(prev), cwd, c, PlanIndexOf(ix, cwd, cmds, generator, decode)[c]))
  }

  /** The index after planning holds every predicted command; an entry that
      was there is reused unchanged, a missing one is the generated defence. */
  lemma {:induction false} PlanIndex(ix: map<string, DefenseData>, cwd: string, cmds: seq<string>,
                                     generator: (string, string) -> string, decode: string -> Option<DefenseData>)
    ensures var r := PlanIndexOf(ix, cwd, cmds, generator, decode);
      r.Keys == ix.Keys + Elems(cmds)
      && (forall c :: c in ix ==> r[c] == ix[c])
      && (forall c :: c in r && c !in ix ==> r[c] == CreateDefense(c, cwd, generator, decode))
    decreases |cmds|
  {
    if cmds != [] {
      PlanIndex(ix, cwd, cmds[..|cmds| - 1], generator, decode);
      assert cmds == cmds[..|cmds| - 1] + [cmds[|cmds| - 1]];
    }
  }

  lemma PlanStep(ix: map<string, DefenseData>, f: Stored<Scenario>, cwd: string, cmds: seq<string>, i: nat,
                 generator: (string, string) -> string, decode: string -> Option<DefenseData>)
    requires i < |cmds|
    ensures var prev := PlanIndexOf(ix, cwd, cmds[..i], generator, decode);
      var d := DefenseFor(prev, cmds[i], cwd, generator, decode);
      PlanIndexOf(ix, cwd, cmds[..i + 1], generator, decode) == prev[cmds[i] := d]
      && PlanScenario(ix, f, cwd, cmds[..i + 1], generator, decode)
         == Saved(Injected(LoadScenario(PlanScenario(ix, f, cwd, cmds[..i], generator, decode)), cwd, cmds[i], d))
  {
    var s := cmds[..i + 1];
    assert |s| - 1 == i && s[..|s| - 1] == cmds[..i] && s[|s| - 1] == cmds[i];
  }

  /** Every command of `cmds` whose defence in `ix` has an output is answered
      with that output from `command_cache[cwd]`. */
  ghost predicate Serves(sc: Scenario, cwd: string, cmds: seq<string>, ix: map<string, DefenseData>) {
    forall c :: c in cmds && c in ix && HasOutput(ix[c]) ==>
      c in CacheAt(sc, cwd) && CacheAt(sc, cwd)[c] == ix[c].terminalOutput.value
  }

  lemma ServesStep(sc: Scenario, cwd: string, cmds: seq<string>, ix: map<string, DefenseData>, c: string, d: DefenseData)
    requires Serves(sc, cwd, cmds, ix)
    requires forall x :: x in cmds ==> x in ix
    requires c in ix ==> d == ix[c]
    ensures Serves(Injected(sc, cwd, c, d), cwd, cmds + [c], ix[c := d])
  {
    InjectedCache(sc, cwd, c, d);
  }

  /** After planning, each predicted command whose defence has an output is
      answered from `command_cache[cwd]`, and the file has been saved as soon
      as one command was planned. */
  lemma {:induction false} PlanServesOutputs(ix: map<string, DefenseData>, f: Stored<Scenario>, cwd: string, cmds: seq<string>,
                                             generator: (string, string) -> string, decode: string -> Option<DefenseData>)
    ensures var sf := PlanScenario(ix, f, cwd, cmds, generator, decode);
      (cmds == [] ==> sf == f)
      && (cmds != [] ==> sf.Saved?)
      && Serves(LoadScenario(sf), cwd, cmds, PlanIndexOf(ix, cwd, cmds, generator, decode))
    decreases |cmds|
  {
    if cmds != [] {
      var n := |cmds| - 1;
      var init, c := cmds[..n], cmds[n];
      PlanStep(ix, f, cwd, cmds, n, generator, decode);
      assert cmds[..n + 1] == cmds && init + [c] == cmds;
      var prev := PlanIndexOf(ix, cwd, init, generator, decode);
      PlanServesOutputs(ix, f, cwd, init, generator, decode);
      PlanIndex(ix, cwd, init, generator, decode);
      ServesStep(LoadScenario(PlanScenario(ix, f, cwd, init, generator, decode)), cwd, init, prev, c,
                 DefenseFor(prev, c, cwd, generator, decode));
    }
  }

  /** The scenario file after one `remove_prediction_from_scenario` call:
      saved only when something was deleted. */
  function RemoveFile(f: Stored<Scenario>, cwd: string, command: string, d: DefenseData): Stored<Scenario> {
    var st := Removal(LoadScenario(f), cwd, command, d);
    if st.changed then Saved(st.doc) else f
  }

  /** The scenario file after the cleanup loop over `preds`. */
  function Cleanup(f: Stored<Scenario>, cwd: string, preds: seq<string>, actual: string,
                   dm: map<string, DefenseData>): Stored<Scenario>
    decreases |preds|
  {
    if preds == [] then f
    else
      var prev := Cleanup(f, cwd, preds[..|preds| - 1], actual, dm);
      var p := preds[|preds| - 1];
      if p != actual && p in dm then RemoveFile(prev, cwd, p, dm[p]) else prev
  }

  /** A command is answered from the cache for `cwd`. */
  predicate CachedAt(f: Stored<Scenario>, cwd: string, c: string) {
    c in CacheAt(LoadScenario(f), cwd)
  }

  lemma RemoveFileCache(f: Stored<Scenario>, cwd: string, command: string, d: DefenseData, c: string)
    ensures CachedAt(RemoveFile(f, cwd, command, d), cwd, c) <==> CachedAt(f, cwd, c) && c != command
  {
    RemovalEffect(LoadScenario(f), cwd, command, d);
  }

  lemma CleanupStep(f: Stored<Scenario>, cwd: string, preds: seq<string>, i: nat, actual: string,
                    dm: map<string, DefenseData>)
    requires i < |preds|
    ensures var prev := Cleanup(f, cwd, preds[..i], actual, dm);
      Cleanup(f, cwd, preds[..i + 1], actual, dm)
      == if preds[i] != actual && preds[i] in dm then RemoveFile(prev, cwd, preds[i], dm[preds[i]]) else prev
  {
    assert preds[..i + 1][..i] == preds[..i];
  }

  /** After cleanup a command is still cached for `cwd` exactly when it was
      before and was not a predicted, not-taken command with defence data. */
  lemma {:induction false} CleanupCache(f: Stored<Scenario>, cwd: string, preds: seq<string>, actual: string,
                                        dm: map<string, DefenseData>, c: string)
    ensures CachedAt(Cleanup(f, cwd, preds, actual, dm), cwd, c)
        <==> CachedAt(f, cwd, c) && !(c in preds && c != actual && c in dm)
    decreases |preds|
  {
    if preds != [] {
      var init, p := preds[..|preds| - 1], preds[|preds| - 1];
      CleanupCache(f, cwd, init, actual, dm, c);
      assert preds == init + [p];
      if p != actual && p in dm {
        RemoveFileCache(Cleanup(f, cwd, init, actual, dm), cwd, p, dm[p], c);
      }
    }
  }

  // ---------------------------------------------------------------------
  // The defender's state
  // ---------------------------------------------------------------------

  class Defender {
    /** `history_comandi`, with its state file. */
    var history: map<string, seq<string>>
    var historyFile: Stored<map<string, seq<string>>>
    /** `active_predictions`. */
    var activePredictions: map<string, BranchState>
    /** The defence index file, keyed by the exact predicted command. */
    var indexFile: Stored<map<string, DefenseData>>
    /** The scenario file the shell reads, and its `.tmp` sibling. */
    var scenarioFile: Stored<Scenario>
    var scenarioTemp: Stored<Scenario>

    /** `main`'s start-up: the history is loaded, no branch is active. */
    constructor (hf: Stored<map<string, seq<string>>>, xf: Stored<map<string, DefenseData>>, sf: Stored<Scenario>)
      ensures history == Load(hf, map[]) && activePredictions == map[]
      ensures historyFile == hf && indexFile == xf && scenarioFile == sf && scenarioTemp == Missing
    {
      history := Load(hf, map[]);
      activePredictions := map[];
      historyFile, indexFile, scenarioFile, scenarioTemp := hf, xf, sf, Missing;
    }

    function HistoryOf(sk: string): seq<string>
      reads this`history
    {
      if sk in history then history[sk] else []
    }

    function World(): Scenario
      reads this`scenarioFile
    {
      LoadScenario(scenarioFile)
    }

    /** `save_scenario`: write the `.tmp` file, then move it over the scenario. */
    method SaveScenario(data: Scenario)
      modifies this`scenarioFile, this`scenarioTemp
      ensures scenarioFile == Saved(data) && scenarioTemp == Missing
    {
      scenarioTemp := Saved(data);
      scenarioFile := scenarioTemp;
      scenarioTemp := Missing;
    }

    /** `update_history`: append to the session's list and save the whole map. */
    method UpdateHistory(sk: string, cmd: string)
      modifies this`history, this`historyFile
      ensures history == old(history)[sk := old(HistoryOf(sk)) + [cmd]]
      ensures forall s :: s != sk ==> HistoryOf(s) == old(HistoryOf(s))
      ensures historyFile == Saved(history)
    {
      history := history[sk := HistoryOf(sk) + [cmd]];
      historyFile := Saved(history);
    }

    /** `inject_prediction_into_scenario`. */
    method InjectPrediction(cwd: string, command: string, d: DefenseData)
      modifies this`scenarioFile, this`scenarioTemp
      ensures scenarioFile == Saved(Injected(old(World()), cwd, command, d)) && scenarioTemp == Missing
    {
      var sc := World();
      var out := d.terminalOutput;
      if out.Some? && out.value != "" {
        var cc := if sc.commandCache.Some? then sc.commandCache.value else map[];
        var inner := if cwd in cc then cc[cwd] else map[];
        sc := sc.(commandCache := Some(cc[cwd := inner[command := out.value]]));
      }
      ghost var sc0 := sc;
      assert sc0 == InjectOutput(old(World()), cwd, command, d);
      for i := 0 to |d.artifacts|
        invariant sc == InjectArtifacts(sc0, cwd, d.artifacts[..i])
        invariant scenarioFile == old(scenarioFile) && scenarioTemp == old(scenarioTemp)
      {
        var a := d.artifacts[i];
        InjectArtifactsStep(sc0, cwd, d.artifacts, i);
        if a.path.Some? && a.path.value != "" && a.content.Some? && a.content.value != "" {
          var path := a.path.value;
          if !IsAbs(path) {
            path := Replace(JoinPath(cwd, path), "\\", "/");
          }
          assert path == Target(cwd, a);
          var sf := if sc.staticFiles.Some? then sc.staticFiles.value else map[];
          sc := sc.(staticFiles := Some(sf[path := a.content.value]));
          var parent, fname := DirName(path), BaseName(path);
          var fs := if sc.filesystem.Some? then sc.filesystem.value else map[];
          var names := if parent in fs then fs[parent] else [];
          if fname !in names {
            names := names + [fname];
          }
          sc := sc.(filesystem := Some(fs[parent := names]));
        }
      }
      assert d.artifacts[..|d.artifacts|] == d.artifacts;
      SaveScenario(sc);
    }

    /** `remove_prediction_from_scenario`: the scenario is saved only when a
        deletion happened. */
    method RemovePrediction(cwd: string, command: string, d: DefenseData)
      modifies this`scenarioFile, this`scenarioTemp
      ensures Removal(old(World()), cwd, command, d).changed ==>
        scenarioFile == Saved(Removal(old(World()), cwd, command, d).doc) && scenarioTemp == Missing
      ensures !Removal(old(World()), cwd, command, d).changed ==>
        scenarioFile == old(scenarioFile) && scenarioTemp == old(scenarioTemp)
    {
      var sc := World();
      var changed := false;
      if sc.commandCache.Some? && cwd in sc.commandCache.value {
        if command in sc.commandCache.value[cwd] {
          var cc := sc.commandCache.value;
          sc := sc.(commandCache := Some(cc[cwd := cc[cwd] - {command}]));
          changed := true;
        }
      }
      ghost var st0 := Step(sc, changed);
      for i := 0 to |d.artifacts|
        invariant Step(sc, changed) == RemoveArtifacts(st0, cwd, d.artifacts[..i])
        invariant scenarioFile == old(scenarioFile) && scenarioTemp == old(scenarioTemp)
      {
        var a := d.artifacts[i];
        RemoveArtifactsStep(st0, cwd, d.artifacts, i);
        if a.path.Some? && a.path.value != "" {
          var path := a.path.value;
          if !IsAbs(path) {
            path := JoinPath(cwd, path);
          }
          assert path == RemoveTarget(cwd, a);
          if sc.staticFiles.Some? && path in sc.staticFiles.value {
            sc := sc.(staticFiles := Some(sc.staticFiles.value - {path}));
            changed := true;
          }
          var parent, fname := DirName(path), BaseName(path);
          if sc.filesystem.Some? && parent in sc.filesystem.value {
            if fname in sc.filesystem.value[parent] {
              var fs := sc.filesystem.value;
              sc := sc.(filesystem := Some(fs[parent := RemoveFirst(fs[parent], fname)]));
              changed := true;
            }
          }
        }
      }
      assert d.artifacts[..|d.artifacts|] == d.artifacts;
      if changed {
        SaveScenario(sc);
      }
    }

    /** The body of the plan loop for one prediction. */
    method PlanOne(cwd: string, cmd: string, ix: map<string, DefenseData>,
                   generator: (string, string) -> string, decode: string -> Option<DefenseData>)
      returns (ix': map<string, DefenseData>, data: DefenseData)
      modifies this`scenarioFile, this`scenarioTemp
      ensures data == DefenseFor(ix, cmd, cwd, generator, decode) && ix' == ix[cmd := data]
      ensures scenarioFile == Saved(Injected(old(World()), cwd, cmd, data))
    {
      ix' := ix;
      if cmd in ix {
        data := ix[cmd];
      } else {
        data := CreateDefense(cmd, cwd, generator, decode);
        ix' := ix[cmd := data];
      }
      InjectPrediction(cwd, cmd, data);
    }

    /** The plan loop: one defence per prediction, looked up in the index or
        generated and indexed, and injected. */
    method PlanLoop(cwd: string, predictions: seq<string>, ix0: map<string, DefenseData>,
                    generator: (string, string) -> string, decode: string -> Option<DefenseData>)
      returns (ix: map<string, DefenseData>, dm: map<string, DefenseData>)
      modifies this`scenarioFile, this`scenarioTemp
      ensures ix == PlanIndexOf(ix0, cwd, predictions, generator, decode)
      ensures scenarioFile == PlanScenario(ix0, old(scenarioFile), cwd, predictions, generator, decode)
      ensures dm.Keys == Elems(predictions) && forall c :: c in dm ==> c in ix && dm[c] == ix[c]
    {
      ix, dm := ix0, map[];
      for i := 0 to |predictions|
        invariant ix == PlanIndexOf(ix0, cwd, predictions[..i], generator, decode)
        invariant scenarioFile == PlanScenario(ix0, old(scenarioFile), cwd, predictions[..i], generator, decode)
        invariant dm.Keys == Elems(predictions[..i]) && forall c :: c in dm ==> c in ix && dm[c] == ix[c]
      {
        var cmd := predictions[i];
        PlanStep(ix0, old(scenarioFile), cwd, predictions, i, generator, decode);
        ElemsSnoc(predictions, i);
        var data;
        ix, data := PlanOne(cwd, cmd, ix, generator, decode);
        dm := dm[cmd := data];
      }
      assert predictions[..|predictions|] == predictions;
    }

    /** `plan_and_apply_defenses`: the index is saved once, after the loop,
        and the session's branch set becomes the predictions with their defences. */
    method PlanAndApplyDefenses(sk: string, cwd: string, predictions: seq<string>,
                                generator: (string, string) -> string, decode: string -> Option<DefenseData>)
      modifies this`scenarioFile, this`scenarioTemp, this`indexFile, this`activePredictions
      ensures var ix := PlanIndexOf(Load(old(indexFile), map[]), cwd, predictions, generator, decode);
        indexFile == Saved(ix)
        && scenarioFile == PlanScenario(Load(old(indexFile), map[]), old(scenarioFile), cwd, predictions, generator, decode)
        && sk in activePredictions && PlannedFrom(activePredictions[sk], predictions, ix)
      ensures activePredictions == old(activePredictions)[sk := activePredictions[sk]]
    {
      var ix, dm := PlanLoop(cwd, predictions, Load(indexFile, map[]), generator, decode);
      indexFile := Saved(ix);
      activePredictions := activePredictions[sk := Planned(predictions, dm)];
    }

    /** `cleanup_other_branches`: a session without a branch set (or with the
        `{}` of an earlier cleanup) is left alone; otherwise every predicted
        command other than the actual one that has defence data is removed,
        whether or not the actual command was predicted, and the branch set
        is reset. */
    method CleanupOtherBranches(sk: string, actual: string, cwd: string)
      modifies this`scenarioFile, this`scenarioTemp, this`activePredictions
      ensures sk !in old(activePredictions) || old(activePredictions)[sk].Reset? ==> unchanged(this)
      ensures sk in old(activePredictions) && old(activePredictions)[sk].Planned? ==>
        var st := old(activePredictions)[sk];
        scenarioFile == Cleanup(old(scenarioFile), cwd, st.predicted, actual, st.defenseData)
        && activePredictions == old(activePredictions)[sk := Reset]
    {
      if sk !in activePredictions || activePredictions[sk].Reset? {
        return;
      }
      var st := activePredictions[sk];
      var preds, dataMap := st.predicted, st.defenseData;
      for i := 0 to |preds|
        invariant scenarioFile == Cleanup(old(scenarioFile), cwd, preds[..i], actual, dataMap)
        invariant activePredictions == old(activePredictions)
      {
        var p := preds[i];
        CleanupStep(old(scenarioFile), cwd, preds, i, actual, dataMap);
        if p != actual && p in dataMap {
          RemovePrediction(cwd, p, dataMap[p]);
        }
      }
      assert preds[..|preds|] == preds;
      activePredictions := activePredictions[sk := Reset];
    }

    /** Cleanup, the first half of `handle_new_command`. */
    method CommitBranch(sk: string, actual: string, cwd: string)
      modifies this`scenarioFile, this`scenarioTemp, this`activePredictions
      ensures activePredictions == CommittedBranches(old(activePredictions), sk)
      ensures scenarioFile == CommittedScenario(old(activePredictions), old(scenarioFile), sk, actual, cwd)
    {
      CleanupOtherBranches(sk, actual, cwd);
    }

    /** History, prediction and planning, the second half of `handle_new_command`. */
    method ExtendAndPlan(sk: string, cmd: string, cwd: string, oracle: seq<string> -> string,
                         generator: (string, string) -> string, decode: string -> Option<DefenseData>)
      modifies this`history, this`historyFile, this`scenarioFile, this`scenarioTemp, this`indexFile, this`activePredictions
      ensures history == old(history)[sk := old(HistoryOf(sk)) + [cmd]] && historyFile == Saved(history)
      ensures var predictions := Predictions(history[sk], oracle);
        var ix0 := Load(old(indexFile), map[]);
        indexFile == Saved(PlanIndexOf(ix0, cwd, predictions, generator, decode))
        && scenarioFile == PlanScenario(ix0, old(scenarioFile), cwd, predictions, generator, decode)
        && sk in activePredictions && activePredictions == old(activePredictions)[sk := activePredictions[sk]]
        && PlannedFrom(activePredictions[sk], predictions, PlanIndexOf(ix0, cwd, predictions, generator, decode))
    {
      UpdateHistory(sk, cmd);
      var predictions := Predictions(HistoryOf(sk), oracle);
      PlanAndApplyDefenses(sk, cwd, predictions, generator, decode);
    }

    /** `handle_new_command`: no command is skipped, not even an empty one;
        cleanup, history, prediction and planning run in that order. */
    method HandleNewCommand(e: LogEntry, oracle: seq<string> -> string,
                            generator: (string, string) -> string, decode: string -> Option<DefenseData>)
      modifies this`history, this`historyFile, this`scenarioFile, this`scenarioTemp, this`indexFile, this`activePredictions
      ensures var sk := SessionKey(e, "def", "unk");
        history == old(history)[sk := old(HistoryOf(sk)) + [Command(e)]] && historyFile == Saved(history)
      ensures var sk, cwd := SessionKey(e, "def", "unk"), GetOr(e.cwd, "/root");
        indexFile == Saved(PlanIndexOf(Load(old(indexFile), map[]), cwd, Predictions(history[sk], oracle), generator, decode))
      ensures var sk, cwd := SessionKey(e, "def", "unk"), GetOr(e.cwd, "/root");
        scenarioFile == PlanScenario(Load(old(indexFile), map[]),
                                     CommittedScenario(old(activePredictions), old(scenarioFile), sk, Command(e), cwd),
                                     cwd, Predictions(history[sk], oracle), generator, decode)
      ensures var sk := SessionKey(e, "def", "unk");
        sk in activePredictions && activePredictions == old(activePredictions)[sk := activePredictions[sk]]
      ensures var sk, cwd := SessionKey(e, "def", "unk"), GetOr(e.cwd, "/root");
        var predictions := Predictions(history[sk], oracle);
        PlannedFrom(activePredictions[sk], predictions, PlanIndexOf(Load(old(indexFile), map[]), cwd, predictions, generator, decode))
    {
      var session := SessionKey(e, "def", "unk");
      var cmd := Command(e);
      var cwd := GetOr(e.cwd, "/root");
      ghost var ix0 := Load(indexFile, map[]);
      CommitBranch(session, cmd, cwd);
      assert Load(indexFile, map[]) == ix0;
      ExtendAndPlan(session, cmd, cwd, oracle, generator, decode);
    }
  }

  /** The branch sets after cleanup: a planned session is reset. */
  function CommittedBranches(ap: map<string, BranchState>, sk: string): map<string, BranchState> {
    if sk in ap && ap[sk].Planned? then ap[sk := Reset] else ap
  }

  /** The scenario file after cleanup for the command `actual`. */
  function CommittedScenario(ap: map<string, BranchState>, f: Stored<Scenario>, sk: string, actual: string,
                             cwd: string): Stored<Scenario>
  {
    if sk in ap && ap[sk].Planned? then Cleanup(f, cwd, ap[sk].predicted, actual, ap[sk].defenseData) else f
  }

  /** A branch set holding the predictions, each with its defence from `ix`. */
  predicate PlannedFrom(st: BranchState, predictions: seq<string>, ix: map<string, DefenseData>) {
    st.Planned? && st.predicted == predictions && st.defenseData.Keys == Elems(predictions)
    && forall c :: c in st.defenseData ==> c in ix && st.defenseData[c] == ix[c]
  }
}
