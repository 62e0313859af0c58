/** The older, single-file shell (Deception/Brain.py): the brain keeps the
    scenario it was started with (it never reloads), answers `cat` of a
    known static file itself and everything else through the model, guesses
    the next commands with a fixed heuristic, and its session handles `cd`,
    `wget` and `chmod` locally. */
module LegacyBrain {
  import opened Outcomes
  import opened PyText
  import opened LineEditing
  import opened ShellBrain
  import opened SessionHandler

  const WGET_GUESS: seq<string> := ["chmod +x file", "./file"]
  const SQL_GUESS: seq<string> := ["DROP TABLE Users", "UNION SELECT..."]
  const DEFAULT_GUESS: seq<string> := ["ls", "whoami", "exit"]

  /** `predict_future`: a look at the last command only. */
  function PredictFuture(history: seq<string>): seq<string> {
    var last := if history == [] then "" else history[|history| - 1];
    if Contains(last, "wget") then WGET_GUESS
    else if Contains(Upper(last), "SELECT") then SQL_GUESS
    else DEFAULT_GUESS
  }

  /** `wget` in the last command wins over `SELECT`; `SELECT` is found in
      any letter case; every other history, the empty one included, gets
      the default guess. */
  lemma PredictFutureCases(history: seq<string>)
    ensures history == [] ==> PredictFuture(history) == DEFAULT_GUESS
    ensures history != [] ==>
      var last := history[|history| - 1];
      (Contains(last, "wget") ==> PredictFuture(history) == WGET_GUESS)
      && (!Contains(last, "wget") && Contains(Upper(last), "SELECT") ==> PredictFuture(history) == SQL_GUESS)
      && (!Contains(last, "wget") && !Contains(Upper(last), "SELECT") ==> PredictFuture(history) == DEFAULT_GUESS)
  {
    if history == [] {
      assert !Contains("", "wget");
      assert Upper("") == "";
      assert !Contains("", "SELECT");
    }
  }

  /** The model answer as this version cleans it: a blocked answer becomes
      an error line, and `sql` fences are removed too. */
  function LegacyAiAnswer(reply: AiReply): string {
    match reply
    case Blocked => "Error: Blocked by safety filters."
    case Text(t) => Strip(Replace(Replace(Replace(t, "```text", ""), "```sql", ""), "```", ""))
    case Failure(e) => "Error: AI Backend unavailable (" + e + ")"
  }

  /** The `cat` shortcut: `cat X` with `X` a key of `static_files`, taken
      as written (the path is not resolved against the directory). */
  function CatShortcut(staticFiles: map<string, string>, command: string): Option<string> {
    var parts := SplitWs(command);
    if |parts| > 1 && "cat " <= command && parts[1] in staticFiles then Some(staticFiles[parts[1]]) else None
  }

  /** `generate_response(command, context)`; the model is
      `ai(user, cwd, files, command)`. */
  function LegacyRespond(staticFiles: map<string, string>, filesystem: map<string, seq<string>>,
                         command: string, cwd: string, user: string,
                         ai: (string, string, string, string) -> AiReply): string
  {
    var hit := CatShortcut(staticFiles, command);
    if hit.Some? then hit.value
    else
      var files := if cwd in filesystem then filesystem[cwd] else [];
      LegacyAiAnswer(ai(user, cwd, Join(files, ", "), command))
  }

  /** `cat` of a known file answers with its content whatever the model
      would say, so the model is not consulted; any other command is the
      model's answer. */
  lemma CatShortcutServes(staticFiles: map<string, string>, filesystem: map<string, seq<string>>,
                          command: string, cwd: string, user: string,
                          ai1: (string, string, string, string) -> AiReply,
                          ai2: (string, string, string, string) -> AiReply)
    ensures var parts := SplitWs(command);
      (|parts| > 1 && "cat " <= command && parts[1] in staticFiles ==>
         LegacyRespond(staticFiles, filesystem, command, cwd, user, ai1) == staticFiles[parts[1]]
         && LegacyRespond(staticFiles, filesystem, command, cwd, user, ai1)
            == LegacyRespond(staticFiles, filesystem, command, cwd, user, ai2))
      && (!(|parts| > 1 && "cat " <= command && parts[1] in staticFiles) ==>
         exists reply :: LegacyRespond(staticFiles, filesystem, command, cwd, user, ai1) == LegacyAiAnswer(reply))
  {
    if CatShortcut(staticFiles, command).None? {
      var files := if cwd in filesystem then filesystem[cwd] else [];
      var reply := ai1(user, cwd, Join(files, ", "), command);
      assert LegacyRespond(staticFiles, filesystem, command, cwd, user, ai1) == LegacyAiAnswer(reply);
    }
  }

  const LEGACY_COMMANDS: seq<string> :=
    ["ls", "cd", "cat", "wget", "curl", "clear", "exit", "whoami", "pwd", "python", "ssh", "grep",
     "nano", "vi", "sudo", "history"]

  /** `cd <target>` in this version: `..` joins all but the last part, `/`
      when nothing is left; there is no `~`, so `cd ~` goes to a directory
      named `~` under the current one. */
  function LegacyCd(cwd: string, target: string): string {
    if target == ".." then
      var parts := SplitOn(cwd, '/');
      var up := Join(parts[..|parts| - 1], "/");
      if up == "" then "/" else up
    else if "/" <= target then target
    else RStripChars(cwd, {'/'}) + "/" + target
  }

  /** `cd ..` drops the last part of the directory (from `/a/b` to `/a`)
      or goes to `/`; a relative target, `~` included, is appended. */
  lemma LegacyCdCases(cwd: string, target: string)
    ensures var parts := SplitOn(cwd, '/');
      var r := LegacyCd(cwd, target);
      (target == ".." && |parts| >= 2 && r != "/" ==> cwd == r + "/" + parts[|parts| - 1])
      && (target == ".." && |parts| < 2 ==> r == "/")
      && (target != ".." && "/" <= target ==> r == target)
      && (target != ".." && !("/" <= target) ==> r == RStripChars(cwd, {'/'}) + "/" + target)
  {
    var parts := SplitOn(cwd, '/');
    if target == ".." && |parts| >= 2 {
      JoinSplitOn(cwd, '/');
      JoinSnoc(parts, "/");
    }
    if target == ".." && |parts| < 2 {
      assert parts[..0] == [];
    }
  }

  /** The brain of the older shell: its sections are read once, from the
      scenario it is given, and `wget` adds to its listings in place. */
  class LegacyCyberBrain {
    var filesystem: map<string, seq<string>>
    const staticFiles: map<string, string>

    constructor(filesystem: map<string, seq<string>>, staticFiles: map<string, string>)
      ensures this.filesystem == filesystem && this.staticFiles == staticFiles
    {
      this.filesystem := filesystem;
      this.staticFiles := staticFiles;
    }

    function FilesAt(cwd: string): seq<string>
      reads this
    {
      if cwd in filesystem then filesystem[cwd] else []
    }

    /** `get_autocomplete_candidates` over this brain's command list and the
        current listing (including files `wget` added). */
    function Candidates(buffer: seq<char>, cwd: string): Completion
      reads this
    {
      Complete(buffer, LEGACY_COMMANDS, FilesAt(cwd))
    }
  }

  class LegacySession {
    const user: string
    var cwd: string
    var history: seq<string>

    constructor(user: string, cwd: string)
      ensures this.user == user && this.cwd == cwd && history == []
    {
      this.user := user;
      this.cwd := cwd;
      history := [];
    }

    /** One entered (already stripped) line, as `handle_connection` treats
        it: blank lines are dropped, `exit` and `clear` are recorded and act,
        on a `linux` scenario `cd`, `wget` and `chmod` are handled here
        (`chmod` silently), and the rest goes to the brain. */
    method HandleLine(command: string, isLinux: bool, brain: LegacyCyberBrain) returns (action: Action)
      modifies this, brain
      ensures command == "" ==> action == Skip && history == old(history)
      ensures command != "" ==> history == old(history) + [command]
      ensures action.Local? && "cd " <= command ==> |SplitWs(command)| >= 2 && cwd == LegacyCd(old(cwd), SplitWs(command)[1])
      ensures !(action.Local? && "cd " <= command) ==> cwd == old(cwd)
      ensures action.Local? && !("cd " <= command) && "wget" <= command ==>
        brain.filesystem == old(brain.filesystem)[cwd := old(brain.FilesAt(cwd)) + [WgetName(command)]]
      ensures !(action.Local? && !("cd " <= command) && "wget" <= command) ==> brain.filesystem == old(brain.filesystem)
      ensures action.Local? && !("cd " <= command) && !("wget" <= command) ==> "chmod" <= command && action.output == ""
      ensures command == "exit" ==> action == Exit
      ensures command == "clear" ==> action == Clear
      ensures action.AskBrain? ==> action.command == command
      ensures command !in {"", "exit", "clear"} ==>
        if isLinux && "cd " <= command && |SplitWs(command)| >= 2 then action == Local("")
        else if isLinux && !("cd " <= command) && "wget" <= command then
          SplitWs(command) != [] && action == Local(WgetReply(command))
        else if isLinux && !("cd " <= command) && !("wget" <= command) && "chmod" <= command then action == Local("")
        else action == AskBrain(command)
    {
      if command == "" {
        return Skip;
      }
      history := history + [command];
      if command == "exit" {
        return Exit;
      }
      if command == "clear" {
        return Clear;
      }
      action := AskBrain(command);
      if isLinux {
        if "cd " <= command {
          var parts := SplitWs(command);
          if |parts| >= 2 {
            cwd := LegacyCd(cwd, parts[1]);
            action := Local("");
          }
        } else if "wget" <= command {
          WgetHasWord(command);
          var fname := WgetName(command);
          var listing := if cwd in brain.filesystem then brain.filesystem[cwd] else [];
          brain.filesystem := brain.filesystem[cwd := listing + [fname]];
          action := Local(WgetReply(command));
        } else if "chmod" <= command {
          action := Local("");
        }
      }
    }
  }
}
