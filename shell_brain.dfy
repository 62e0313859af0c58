/** The shell's answering side (deception/brain.py): before each answer the
    brain reloads the scenario document the defender rewrites, then answers
    from the injected `command_cache` of the working directory, then from
    the static files (`cat`, `head`, `tail`, `grep`, ...), then from its
    own `ls` simulation, and only then from the language model. */
module ShellBrain {
  import opened Outcomes
  import opened PyText
  import opened PyPath
  import opened Seqs
  import opened StringOrder
  import opened JsonStore
  import opened LineEditing
  import opened ScenarioDefender

  /** The part of the scenario the brain keeps after `_reload_state`. */
  datatype BrainView = BrainView(
    filesystem: map<string, seq<string>>,
    staticFiles: map<string, string>,
    commandCache: map<string, map<string, string>>)

  /** `_reload_state`: a readable document replaces all three sections, a
      missing section reading as `{}`; a failed load keeps the old state. */
  function Reloaded(old_: BrainView, f: Stored<Scenario>): (r: BrainView)
    ensures !f.Saved? ==> r == old_
  {
    if f.Saved? then BrainView(FsOf(f.doc), StaticOf(f.doc), CacheOf(f.doc)) else old_
  }

  /** `self.filesystem.get(cwd, [])`. */
  function FilesAt(b: BrainView, cwd: string): seq<string> {
    if cwd in b.filesystem then b.filesystem[cwd] else []
  }

  /** `_resolve_path`: absolute targets are normalised as they are, relative
      ones after joining them to the working directory. */
  function ResolvePath(cwd: string, target: string): string {
    if "/" <= target then NormPath(target) else NormPath(JoinPath(cwd, target))
  }

  /** From an absolute working directory every target resolves to an absolute
      path with no empty, `.` or `..` component left. */
  lemma ResolveAbsolute(cwd: string, target: string)
    requires IsAbs(cwd)
    ensures var r := ResolvePath(cwd, target);
      IsAbs(r) && forall k :: 0 <= k < |NormComponents(r)| ==> ProperName(NormComponents(r)[k])
  {
    var p := if "/" <= target then target else JoinPath(cwd, target);
    NormPathAbsolute(p);
    var r := NormPath(p);
    NormPathAbsolute(r);
    assert "/" <= r;
  }

  // ---------------------------------------------------------------------
  // _handle_local_ls
  // ---------------------------------------------------------------------

  /** `"".join(part.replace("-", "") for part in args if part.startswith("-"))`. */
  function Flags(args: seq<string>): string
    decreases |args|
  {
    if args == [] then ""
    else Flags(args[..|args| - 1]) + (if "-" <= args[|args| - 1] then Replace(args[|args| - 1], "-", "") else "")
  }

  /** A flag letter is set exactly when some option argument carries it. */
  lemma {:induction false} FlagsHave(args: seq<string>, c: char)
    requires c != '-'
    ensures c in Flags(args) <==> exists k :: 0 <= k < |args| && "-" <= args[k] && c in args[k]
    decreases |args|
  {
    if args != [] {
      var init, last := args[..|args| - 1], args[|args| - 1];
      FlagsHave(init, c);
      ReplaceDrop(last, '-');
      if c in Flags(args) && !(c in Flags(init)) {
        assert "-" <= last && c in last;
      }
      if exists k :: 0 <= k < |args| && "-" <= args[k] && c in args[k] {
        var k :| 0 <= k < |args| && "-" <= args[k] && c in args[k];
        if k < |init| { assert init[k] == args[k]; }
      }
      if exists k :: 0 <= k < |init| && "-" <= init[k] && c in init[k] {
        var k :| 0 <= k < |init| && "-" <= init[k] && c in init[k];
        assert args[k] == init[k];
      }
    }
  }

  /** The names of a listing `ls` shows: all of them with `-a`, otherwise
      those not starting with `.`. */
  function Shown(files: seq<string>, hidden: bool): seq<string>
    decreases |files|
  {
    if files == [] then []
    else
      var f := files[|files| - 1];
      Shown(files[..|files| - 1], hidden) + (if hidden || !("." <= f) then [f] else [])
  }

  lemma {:induction false} ShownNames(files: seq<string>, hidden: bool)
    ensures var r := Shown(files, hidden);
      (hidden ==> r == files)
      && (forall k :: 0 <= k < |r| ==> r[k] in files && (hidden || !("." <= r[k])))
      && (forall f :: f in files && (hidden || !("." <= f)) ==> f in r)
    decreases |files|
  {
    if files != [] {
      var init := files[..|files| - 1];
      var f := files[|files| - 1];
      ShownNames(init, hidden);
      assert files == init + [f];
      var r0 := Shown(init, hidden);
      assert hidden ==> r0 == init;
      assert forall x :: x in init && (hidden || !("." <= x)) ==> x in r0;
      assert forall j :: 0 <= j < |r0| ==> r0[j] in init;
      var t := if hidden || !("." <= f) then [f] else [];
      var r := Shown(files, hidden);
      assert r == r0 + t;
      forall k | 0 <= k < |r| ensures r[k] in files && (hidden || !("." <= r[k])) {
        if k < |r0| {
          assert r[k] == r0[k];
          assert r0[k] in init && (hidden || !("." <= r0[k]));
        } else {
          assert r[k] == f;
        }
      }
    }
  }

  /** The entries `ls` lists: `.` and `..` first when hidden names are shown. */
  function Visible(args: seq<string>, files: seq<string>): seq<string> {
    var hidden := 'a' in Flags(args);
    (if hidden then [".", ".."] else []) + Shown(files, hidden)
  }

  /** The long-format line of one entry. Entries without a `.` (and `.` and
      `..`) are shown as directories of 4096 bytes; files get a size from the
      random source (`sizes`) and the execute bit when they end in `.sh` or `.py`. */
  function LongLine(name: string, size: nat, now: string): string {
    var isDir := name == "." || name == ".." || '.' !in name;
    var perms :=
      if isDir then "drwxr-xr-x"
      else if (|name| >= 3 && name[|name| - 3..] == ".sh") || (|name| >= 3 && name[|name| - 3..] == ".py") then "-rwxr-xr-x"
      else "-rw-r--r--";
    var links := if isDir then 2 else 1;
    var bytes := if isDir then 4096 else size;
    perms + " " + NatToString(links) + " root root " + NatToString(bytes) + " " + now + " " + name
  }

  function LongLines(names: seq<string>, sizes: nat -> nat, now: string): (r: seq<string>)
    ensures |r| == |names|
    decreases |names|
  {
    if names == [] then []
    else LongLines(names[..|names| - 1], sizes, now) + [LongLine(names[|names| - 1], sizes(|names| - 1), now)]
  }

  function Header(n: nat): string {
    "total " + NatToString(4 * n)
  }

  /** What `_handle_local_ls` prints for `args` (the words after `ls`) over
      the listing `files`; `now` is the formatted clock reading. */
  function LsOutput(args: seq<string>, files: seq<string>, now: string, sizes: nat -> nat): string {
    Render(Visible(args, files), 'l' in Flags(args), now, sizes)
  }

  /** The printed listing of the visible entries, short or long. */
  function Render(vis: seq<string>, long: bool, now: string, sizes: nat -> nat): string {
    if vis == [] then ""
    else if !long then Join(Sort(vis), "  ")
    else Join([Header(|vis|)] + LongLines(vis, sizes, now), "\n")
  }

  /** Without `-a` exactly the listing's names not starting with `.` are
      shown; with it, `.` and `..` come first and then the whole listing. */
  lemma LsVisible(args: seq<string>, files: seq<string>)
    ensures var vis := Visible(args, files);
      (('a' in Flags(args)) ==> vis == [".", ".."] + files)
      && (!('a' in Flags(args)) ==>
            (forall k :: 0 <= k < |vis| ==> vis[k] in files && !("." <= vis[k]))
            && (forall f :: f in files && !("." <= f) ==> f in vis))
  {
    ShownNames(files, 'a' in Flags(args));
    if !('a' in Flags(args)) {
      assert Visible(args, files) == Shown(files, false);
    }
  }

  /** Nothing visible prints nothing. The short format is the visible names
      as one sorted permutation joined by two spaces; the long format starts
      with the header line `total <4 x entries>` and has one line per entry. */
  lemma LsShape(args: seq<string>, files: seq<string>, now: string, sizes: nat -> nat)
    ensures var vis, out := Visible(args, files), LsOutput(args, files, now, sizes);
      out == Render(vis, 'l' in Flags(args), now, sizes) &&
      (vis == [] ==> out == "")
      && (vis != [] && !('l' in Flags(args)) ==>
            exists ordered :: Sorted(ordered) && multiset(ordered) == multiset(vis) && out == Join(ordered, "  "))
      && (vis != [] && 'l' in Flags(args) ==>
            exists lines :: |lines| == |vis| && out == Join([Header(|vis|)] + lines, "\n"))
  {
    var vis := Visible(args, files);
    SortProps(vis);
    if vis != [] && 'l' in Flags(args) {
      var lines := LongLines(vis, sizes, now);
      assert |lines| == |vis|;
    }
  }

  // ---------------------------------------------------------------------
  // generate_response
  // ---------------------------------------------------------------------

  const READ_COMMANDS: seq<string> := ["cat", "head", "tail", "more", "less", "nano", "vi", "vim", "grep"]
  const LS_COMMANDS: seq<string> := ["ls", "ll", "la"]
  const COMMON_COMMANDS: seq<string> :=
    ["ls", "cd", "cat", "wget", "curl", "clear", "exit", "whoami", "pwd", "python", "ssh", "grep",
     "nano", "vi", "sudo", "docker", "git"]

  /** The file argument of a read command: the first word starting with
      neither `-` nor `"`. */
  function TargetArg(args: seq<string>): (r: Option<string>)
    ensures r.Some? ==> r.value in args && !("-" <= r.value) && !("\"" <= r.value)
    ensures r.None? ==> forall k :: 0 <= k < |args| ==> "-" <= args[k] || "\"" <= args[k]
  {
    if args == [] then None
    else if !("-" <= args[0]) && !("\"" <= args[0]) then Some(args[0])
    else TargetArg(args[1..])
  }

  /** `[l for l in lines if keyword in l]`. */
  function GrepLines(lines: seq<string>, keyword: string): (r: seq<string>)
    ensures forall k :: 0 <= k < |r| ==> Contains(r[k], keyword) && r[k] in lines
    ensures forall l :: l in lines && Contains(l, keyword) ==> l in r
  {
    if lines == [] then []
    else (if Contains(lines[0], keyword) then [lines[0]] else []) + GrepLines(lines[1..], keyword)
  }

  /** The answer to a read command on a known static file. */
  function ReadOutput(base: string, parts: seq<string>, content: string): string {
    var lines := SplitLines(content);
    if base == "head" then Join(Take(lines, 10), "\n")
    else if base == "tail" then Join(Last(lines, 10), "\n")
    else if base == "grep" && |parts| >= 3 then Join(GrepLines(lines, StripChars(parts[1], {'"', '\''})), "\n")
    else content
  }

  /** Level 1: the static-file answer, when the command reads a known file. */
  function StaticAnswer(b: BrainView, parts: seq<string>, cwd: string): Option<string> {
    if parts == [] || parts[0] !in READ_COMMANDS then None
    else
      var target := TargetArg(parts[1..]);
      if target.None? || target.value == "" then None
      else
        var full := ResolvePath(cwd, target.value);
        if full in b.staticFiles then Some(ReadOutput(parts[0], parts, b.staticFiles[full])) else None
  }

  /** The words `_handle_local_ls` sees after `ls`: `ll` adds `-l`, `la` adds `-la`. */
  function LsArgs(parts: seq<string>): seq<string>
    requires parts != []
  {
    parts[1..] + (if parts[0] == "ll" then ["-l"] else if parts[0] == "la" then ["-la"] else [])
  }

  /** The outcome of a model call: no candidate parts, a text, or an exception. */
  datatype AiReply = Blocked | Text(text: string) | Failure(error: string)

  /** Level 3: fences removed and stripped, `""` for a blocked answer, an
      error line when the backend fails. */
  function AiAnswer(reply: AiReply): string {
    match reply
    case Blocked => ""
    case Text(t) => Strip(Replace(Replace(t, "```text", ""), "```", ""))
    case Failure(e) => "Error: AI Backend unavailable (" + e + ")"
  }

  /** `generate_response(command, context)` once the state is reloaded. The
      model is `ai(user, cwd, files, command)`, the files being the listing
      joined by `, `. */
  function Respond(b: BrainView, command: string, cwd: string, user: string, now: string, sizes: nat -> nat,
                   ai: (string, string, string, string) -> AiReply): string
  {
    var parts := SplitWs(command);
    var clean := Strip(command);
    if cwd in b.commandCache && clean in b.commandCache[cwd] then b.commandCache[cwd][clean]
    else
      var st := StaticAnswer(b, parts, cwd);
      if st.Some? then st.value
      else if parts != [] && parts[0] in LS_COMMANDS then LsOutput(LsArgs(parts), FilesAt(b, cwd), now, sizes)
      else AiAnswer(ai(user, cwd, Join(FilesAt(b, cwd), ", "), clean))
  }

  /** Level 0 comes first: a cached answer for the stripped command in this
      directory is returned whatever the command is. */
  lemma CacheHitFirst(b: BrainView, command: string, cwd: string, user: string, now: string, sizes: nat -> nat,
                      ai: (string, string, string, string) -> AiReply)
    requires cwd in b.commandCache && Strip(command) in b.commandCache[cwd]
    ensures Respond(b, command, cwd, user, now, sizes, ai) == b.commandCache[cwd][Strip(command)]
  {
  }

  /** Level 1 comes next: without a cache hit, a read of a known static
      file is answered from it. */
  lemma StaticSecond(b: BrainView, command: string, cwd: string, user: string, now: string, sizes: nat -> nat,
                     ai: (string, string, string, string) -> AiReply)
    requires !(cwd in b.commandCache && Strip(command) in b.commandCache[cwd])
    requires StaticAnswer(b, SplitWs(command), cwd).Some?
    ensures Respond(b, command, cwd, user, now, sizes, ai) == StaticAnswer(b, SplitWs(command), cwd).value
  {
  }

  /** Level 2: without a cache hit or a static read, `ls`, `ll` and `la` are
      answered by the local listing of the working directory. */
  lemma ListingThird(b: BrainView, command: string, cwd: string, user: string, now: string, sizes: nat -> nat,
                     ai: (string, string, string, string) -> AiReply)
    requires !(cwd in b.commandCache && Strip(command) in b.commandCache[cwd])
    requires StaticAnswer(b, SplitWs(command), cwd).None?
    requires SplitWs(command) != [] && SplitWs(command)[0] in LS_COMMANDS
    ensures Respond(b, command, cwd, user, now, sizes, ai)
         == LsOutput(LsArgs(SplitWs(command)), FilesAt(b, cwd), now, sizes)
  {
  }

  /** A read of a known file: `head` gives its first ten lines, `tail` its
      last ten, and `cat` and the other readers all of it. */
  lemma StaticReads(b: BrainView, parts: seq<string>, cwd: string)
    requires |parts| >= 2 && parts[0] in READ_COMMANDS && parts[0] != "grep"
    requires parts[1] != "" && !("-" <= parts[1]) && !("\"" <= parts[1]) && ResolvePath(cwd, parts[1]) in b.staticFiles
    ensures var content := b.staticFiles[ResolvePath(cwd, parts[1])];
      var lines := SplitLines(content);
      var out := StaticAnswer(b, parts, cwd);
      out.Some?
      && (parts[0] == "head" ==> exists shown :: shown <= lines && |shown| == (if |lines| < 10 then |lines| else 10) && out.value == Join(shown, "\n"))
      && (parts[0] == "tail" ==> exists shown :: |shown| == (if |lines| < 10 then |lines| else 10)
                                  && shown == lines[|lines| - |shown|..] && out.value == Join(shown, "\n"))
      && (parts[0] != "head" && parts[0] != "tail" ==> out.value == content)
  {
    var content := b.staticFiles[ResolvePath(cwd, parts[1])];
    StaticFound(b, parts, cwd);
    ReadShapes(parts[0], parts, content);
  }

  /** A read whose first argument names a known file is answered from it. */
  lemma StaticFound(b: BrainView, parts: seq<string>, cwd: string)
    requires |parts| >= 2 && parts[0] in READ_COMMANDS
    requires parts[1] != "" && !("-" <= parts[1]) && !("\"" <= parts[1]) && ResolvePath(cwd, parts[1]) in b.staticFiles
    ensures StaticAnswer(b, parts, cwd) == Some(ReadOutput(parts[0], parts, b.staticFiles[ResolvePath(cwd, parts[1])]))
  {
    assert parts[1..][0] == parts[1];
    assert TargetArg(parts[1..]) == Some(parts[1]);
  }

  /** What `head`, `tail` and the plain readers show of a file. */
  lemma ReadShapes(base: string, parts: seq<string>, content: string)
    requires base != "grep"
    ensures var lines := SplitLines(content);
      var out := ReadOutput(base, parts, content);
      (base == "head" ==> exists shown :: shown <= lines && |shown| == (if |lines| < 10 then |lines| else 10) && out == Join(shown, "\n"))
      && (base == "tail" ==> exists shown :: |shown| == (if |lines| < 10 then |lines| else 10)
                              && shown == lines[|lines| - |shown|..] && out == Join(shown, "\n"))
      && (base != "head" && base != "tail" ==> out == content)
  {
    var lines := SplitLines(content);
    if base == "head" {
      assert Take(lines, 10) <= lines;
    }
    if base == "tail" {
      var shown := Last(lines, 10);
      assert shown == lines[|lines| - |shown|..];
    }
  }

  /** `grep` with a keyword and a file answers with exactly the lines of the
      file that contain the keyword stripped of its quotes. The file looked up
      is the first word not starting with `-` or `"`, so unless the keyword is
      written in double quotes it is the keyword that is looked up as the file
      (`FileArgument`). */
  lemma GrepAnswer(b: BrainView, parts: seq<string>, cwd: string)
    requires |parts| >= 3 && parts[0] == "grep"
    requires var t := TargetArg(parts[1..]); t.Some? && t.value != "" && ResolvePath(cwd, t.value) in b.staticFiles
    ensures var keyword := StripChars(parts[1], {'"', '\''});
      var lines := SplitLines(b.staticFiles[ResolvePath(cwd, TargetArg(parts[1..]).value)]);
      var out := StaticAnswer(b, parts, cwd);
      out.Some?
      && (exists hits :: out.value == Join(hits, "\n")
            && (forall k :: 0 <= k < |hits| ==> Contains(hits[k], keyword) && hits[k] in lines)
            && (forall l :: l in lines && Contains(l, keyword) ==> l in hits))
  {
    assert parts[1..][0] == parts[1];
    var t := TargetArg(parts[1..]).value;
    var content := b.staticFiles[ResolvePath(cwd, t)];
    assert StaticAnswer(b, parts, cwd) == Some(ReadOutput("grep", parts, content));
    GrepOutput(parts, content);
  }

  /** The file a read command looks up is its first word after the command
      when that word starts with neither `-` nor `"`: for `grep root f` it is
      `root`. */
  lemma FileArgument(parts: seq<string>)
    requires |parts| >= 2 && !("-" <= parts[1]) && !("\"" <= parts[1])
    ensures TargetArg(parts[1..]) == Some(parts[1])
  {
    assert parts[1..][0] == parts[1];
  }

  lemma GrepOutput(parts: seq<string>, content: string)
    requires |parts| >= 3
    ensures var keyword := StripChars(parts[1], {'"', '\''});
      var lines := SplitLines(content);
      exists hits :: ReadOutput("grep", parts, content) == Join(hits, "\n")
        && (forall k :: 0 <= k < |hits| ==> Contains(hits[k], keyword) && hits[k] in lines)
        && (forall l :: l in lines && Contains(l, keyword) ==> l in hits)
  {
    var keyword := StripChars(parts[1], {'"', '\''});
    var hits := GrepLines(SplitLines(content), keyword);
    assert ReadOutput("grep", parts, content) == Join(hits, "\n");
  }

  /** `ll` and `la` list like `ls -l` and `ls -la`: `ll` always prints the
      long format and `la` also shows hidden names. */
  lemma LlLaFlags(parts: seq<string>)
    requires parts != [] && (parts[0] == "ll" || parts[0] == "la")
    ensures 'l' in Flags(LsArgs(parts))
    ensures parts[0] == "la" ==> 'a' in Flags(LsArgs(parts))
  {
    var args := LsArgs(parts);
    var k := |args| - 1;
    assert "-" <= args[k];
    assert 'l' in args[k];
    FlagsHave(args, 'l');
    if parts[0] == "la" {
      assert 'a' in args[k];
      FlagsHave(args, 'a');
    }
  }

  /** A predicted command that the defender injected with an output is
      answered from the cache, once the brain has reloaded the document,
      whenever the typed line strips to that command. */
  lemma InjectedOutputServed(sc: Scenario, cwd: string, command: string, d: DefenseData, old_: BrainView,
                             typed: string, user: string, now: string, sizes: nat -> nat,
                             ai: (string, string, string, string) -> AiReply)
    requires HasOutput(d) && Strip(typed) == command
    ensures var b := Reloaded(old_, Saved(Injected(sc, cwd, command, d)));
      Respond(b, typed, cwd, user, now, sizes, ai) == d.terminalOutput.value
  {
    InjectedCache(sc, cwd, command, d);
  }

  /** The brain of one shell session: the three sections it last loaded. */
  class CyberBrain {
    var filesystem: map<string, seq<string>>
    var staticFiles: map<string, string>
    var commandCache: map<string, map<string, string>>

    function View(): BrainView
      reads this
    {
      BrainView(filesystem, staticFiles, commandCache)
    }

    /** The first load; a document that cannot be read leaves every section empty. */
    constructor(f: Stored<Scenario>)
      ensures View() == Reloaded(BrainView(map[], map[], map[]), f)
    {
      filesystem, staticFiles, commandCache := map[], map[], map[];
      if f.Saved? {
        filesystem, staticFiles, commandCache := FsOf(f.doc), StaticOf(f.doc), CacheOf(f.doc);
      }
    }

    method ReloadState(f: Stored<Scenario>)
      modifies this
      ensures View() == Reloaded(old(View()), f)
    {
      if f.Saved? {
        filesystem := FsOf(f.doc);
        staticFiles := StaticOf(f.doc);
        commandCache := CacheOf(f.doc);
      }
    }

    /** The first append loop of `_handle_local_ls`. */
    static method VisibleNames(files: seq<string>, showHidden: bool) returns (visible: seq<string>)
      ensures visible == Shown(files, showHidden)
    {
      visible := [];
      var i := 0;
      while i < |files|
        invariant 0 <= i <= |files|
        invariant visible == Shown(files[..i], showHidden)
      {
        assert files[..i + 1][..i] == files[..i];
        if !("." <= files[i]) || showHidden {
          visible := visible + [files[i]];
        }
        i := i + 1;
      }
      assert files[..i] == files;
    }

    /** The second append loop: the header, then one line per entry. */
    static method LongListing(visible: seq<string>, now: string, sizes: nat -> nat) returns (lines: seq<string>)
      ensures lines == [Header(|visible|)] + LongLines(visible, sizes, now)
    {
      lines := [Header(|visible|)];
      var j := 0;
      while j < |visible|
        invariant 0 <= j <= |visible|
        invariant lines == [Header(|visible|)] + LongLines(visible[..j], sizes, now)
      {
        assert visible[..j + 1][..j] == visible[..j];
        lines := lines + [LongLine(visible[j], sizes(j), now)];
        j := j + 1;
      }
      assert visible[..j] == visible;
    }

    /** `_handle_local_ls`. */
    static method HandleLocalLs(args: seq<string>, files: seq<string>, now: string, sizes: nat -> nat)
      returns (out: string)
      ensures out == LsOutput(args, files, now, sizes)
    {
      var flags := Flags(args);
      var showHidden := 'a' in flags;
      var visible := VisibleNames(files, showHidden);
      if showHidden {
        visible := [".", ".."] + visible;
      }
      assert visible == Visible(args, files);
      if visible == [] {
        out := "";
      } else if !('l' in flags) {
        out := Join(Sort(visible), "  ");
      } else {
        var lines := LongListing(visible, now, sizes);
        out := Join(lines, "\n");
      }
    }

    /** Level 1 of `generate_response`: the loop that finds the file
        argument, then the lookup in the static files. */
    method StaticLookup(parts: seq<string>, cwd: string) returns (r: Option<string>)
      ensures r == StaticAnswer(View(), parts, cwd)
    {
      r := None;
      if parts != [] && parts[0] in READ_COMMANDS {
        var target: Option<string> := None;
        var i := 1;
        while i < |parts|
          invariant 1 <= i <= |parts|
          invariant TargetArg(parts[1..]) == TargetArg(parts[i..])
        {
          assert parts[i..][1..] == parts[i + 1..];
          if !("-" <= parts[i]) && !("\"" <= parts[i]) {
            target := Some(parts[i]);
            break;
          }
          i := i + 1;
        }
        assert target.Some? ==> target == TargetArg(parts[1..]);
        assert target.None? ==> parts[i..] == [] && TargetArg(parts[1..]) == None;
        if target.Some? && target.value != "" {
          var full := ResolvePath(cwd, target.value);
          if full in staticFiles {
            r := Some(ReadOutput(parts[0], parts, staticFiles[full]));
          }
        }
      }
    }

    /** `generate_response`: reload, then answer level by level. */
    method GenerateResponse(f: Stored<Scenario>, command: string, cwd: string, user: string, now: string,
                            sizes: nat -> nat, ai: (string, string, string, string) -> AiReply)
      returns (out: string)
      modifies this
      ensures View() == Reloaded(old(View()), f)
      ensures out == Respond(View(), command, cwd, user, now, sizes, ai)
    {
      ReloadState(f);
      var parts := SplitWs(command);
      var clean := Strip(command);
      if cwd in commandCache && clean in commandCache[cwd] {
        return commandCache[cwd][clean];
      }
      var st := StaticLookup(parts, cwd);
      if st.Some? {
        return st.value;
      }
      if parts != [] && parts[0] in LS_COMMANDS {
        var files := if cwd in filesystem then filesystem[cwd] else [];
        out := HandleLocalLs(LsArgs(parts), files, now, sizes);
        return;
      }
      var files := if cwd in filesystem then filesystem[cwd] else [];
      out := AiAnswer(ai(user, cwd, Join(files, ", "), clean));
    }

    /** `get_autocomplete_candidates`: reload, then complete against the
        brain's common commands and the listing of `cwd`. */
    method AutocompleteCandidates(f: Stored<Scenario>, buffer: seq<char>, cwd: string) returns (c: Completion)
      modifies this
      ensures View() == Reloaded(old(View()), f)
      ensures c == Complete(buffer, COMMON_COMMANDS, FilesAt(View(), cwd))
    {
      ReloadState(f);
      var files := if cwd in filesystem then filesystem[cwd] else [];
      c := Complete(buffer, COMMON_COMMANDS, files);
    }
  }
}
