/** One SSH session of the fake shell (deception/session_handler.py): the
    home directory the attacker lands in, the prompt, and the commands the
    session answers itself (`cd`, `wget`) before passing the rest to the
    brain. The key loop that reads each line is `LineEditing`. */
module SessionHandler {
  import opened Outcomes
  import opened PyText
  import opened PyPath
  import opened HoneypotLog
  import opened ShellBrain

  /** The home a user gets when `/etc/passwd` does not name one. */
  function DefaultHome(user: string): string {
    if user == "root" then "/root" else "/home/" + user
  }

  /** A passwd line that gives `user` a home: at least six `:` fields, the
      first being the user name. */
  predicate HomeLine(user: string, line: string) {
    var fields := SplitOn(line, ':');
    |fields| >= 6 && fields[0] == user
  }

  /** The sixth field of the first line that gives `user` a home. */
  function PasswdHome(user: string, lines: seq<string>): Option<string>
  {
    if lines == [] then None
    else if HomeLine(user, lines[0]) then Some(SplitOn(lines[0], ':')[5])
    else PasswdHome(user, lines[1..])
  }

  /** The working directory a session starts in. */
  function HomeOf(user: string, passwd: string): string {
    var h := PasswdHome(user, SplitLines(passwd));
    if h.Some? then h.value else DefaultHome(user)
  }

  /** The first line naming the user with six fields decides the home; with
      no such line the home is `/root` for root and `/home/<user>` otherwise. */
  lemma {:induction false} PasswdHomeFirst(user: string, lines: seq<string>)
    ensures var h := PasswdHome(user, lines);
      (h.None? <==> forall k :: 0 <= k < |lines| ==> !HomeLine(user, lines[k]))
      && (h.Some? ==> exists k :: 0 <= k < |lines| && HomeLine(user, lines[k])
                       && (forall j :: 0 <= j < k ==> !HomeLine(user, lines[j]))
                       && h.value == SplitOn(lines[k], ':')[5])
    decreases |lines|
  {
    if lines != [] && !HomeLine(user, lines[0]) {
      var rest := lines[1..];
      PasswdHomeFirst(user, rest);
      forall k | 0 <= k < |rest| ensures rest[k] == lines[k + 1] { }
      if PasswdHome(user, rest).Some? {
        var k :| 0 <= k < |rest| && HomeLine(user, rest[k])
                 && (forall j :: 0 <= j < k ==> !HomeLine(user, rest[j]))
                 && PasswdHome(user, rest).value == SplitOn(rest[k], ':')[5];
        assert HomeLine(user, lines[k + 1]);
        forall j | 0 <= j < k + 1 ensures !HomeLine(user, lines[j]) {
          if j > 0 { assert lines[j] == rest[j - 1]; }
        }
      } else {
        forall k | 0 <= k < |lines| ensures !HomeLine(user, lines[k]) {
          if k > 0 { assert lines[k] == rest[k - 1]; }
        }
      }
    } else if lines != [] {
      assert HomeLine(user, lines[0]);
    }
  }

  /** `#` for root, `$` for everyone else. */
  function PromptChar(user: string): string {
    if user == "root" then "#" else "$"
  }

  /** The working directory as the prompt shows it: a leading `/home/<user>`
      becomes `~` for other users, and `/root` itself is `~` for root. */
  function DisplayCwd(user: string, cwd: string): string {
    var home := "/home/" + user;
    if user != "root" && home <= cwd then "~" + cwd[|home|..]
    else if user == "root" && cwd == "/root" then "~"
    else cwd
  }

  function Prompt(user: string, hostname: string, cwd: string): string {
    user + "@" + hostname + ":" + DisplayCwd(user, cwd) + PromptChar(user) + " "
  }

  /** Any directory whose path merely starts with `/home/<user>` is shown
      with that prefix as `~`, so `/home/bobby` reads `~by` for user `bob`. */
  lemma DisplayHomePrefix(user: string, rest: string)
    requires user != "root"
    ensures DisplayCwd(user, "/home/" + user + rest) == "~" + rest
  {
    var home := "/home/" + user;
    assert (home + rest)[..|home|] == home;
    assert (home + rest)[|home|..] == rest;
  }

  /** The prompt ends with `# ` exactly for root and with `$ ` otherwise, and
      starts with `<user>@<hostname>:`. */
  lemma PromptShape(user: string, hostname: string, cwd: string)
    ensures var p := Prompt(user, hostname, cwd);
      |p| >= 2 && (p[|p| - 2] == '#' <==> user == "root") && (p[|p| - 2] == '$' <==> user != "root")
      && p[|p| - 1] == ' ' && user + "@" + hostname + ":" <= p
  {
  }

  /** `cd <target>` once the target word is known. */
  function CdTarget(user: string, cwd: string, target: string): string {
    if target == ".." then
      var parts := SplitOn(cwd, '/');
      if |parts| <= 2 then "/" else Join(parts[..|parts| - 1], "/")
    else if target == "~" then DefaultHome(user)
    else if "/" <= target then target
    else RStripChars(cwd, {'/'}) + "/" + target
  }

  /** `cd ..` drops the last `/`-separated part of the directory, and goes
      to `/` when at most one part follows the first `/`. */
  lemma CdUp(user: string, cwd: string)
    ensures var parts := SplitOn(cwd, '/');
      var r := CdTarget(user, cwd, "..");
      (|parts| <= 2 ==> r == "/")
      && (|parts| > 2 ==> cwd == r + "/" + parts[|parts| - 1] && '/' !in parts[|parts| - 1])
  {
    var parts := SplitOn(cwd, '/');
    if |parts| > 2 {
      JoinSplitOn(cwd, '/');
      JoinSnoc(parts, "/");
    }
  }

  /** `cd ~` goes to the default home, not to the one `/etc/passwd` gave the
      session; an absolute target replaces the directory; a relative one is
      appended after the directory's trailing slashes are dropped. */
  lemma CdOther(user: string, cwd: string, target: string)
    requires target != ".."
    ensures var r := CdTarget(user, cwd, target);
      (target == "~" ==> r == DefaultHome(user))
      && (target != "~" && "/" <= target ==> r == target)
      && (target != "~" && !("/" <= target) ==>
            exists base :: base <= cwd && (base == [] || base[|base| - 1] != '/')
              && (forall i :: |base| <= i < |cwd| ==> cwd[i] == '/')
              && r == base + "/" + target)
  {
    if target != "~" && !("/" <= target) {
      var base := RStripChars(cwd, {'/'});
      assert base <= cwd;
    }
  }

  /** The file name `wget <url>` saves: the last `/` part of the last word,
      or `file` when that part is empty. */
  function WgetName(command: string): (r: string)
    requires SplitWs(command) != []
    ensures r != "" && '/' !in r
  {
    var words := SplitWs(command);
    var segs := SplitOn(words[|words| - 1], '/');
    if segs[|segs| - 1] == "" then "file" else segs[|segs| - 1]
  }

  /** A command starting with `wget` always has a last word to save from. */
  lemma WgetHasWord(command: string)
    requires "wget" <= command
    ensures SplitWs(command) != []
  {
    SplitWsEmpty(command);
    assert !IsSpace(command[0]);
  }

  /** What a session does with one entered line. */
  /** What `wget <url>` prints: the last word as the URL it pretends to
      fetch, and the name it saves under. */
  function WgetReply(command: string): string
    requires SplitWs(command) != []
  {
    var words := SplitWs(command);
    "Connecting to " + words[|words| - 1] + "...\r\nSaved to '" + WgetName(command) + "'.\r\n"
  }

  datatype Action = Skip | Exit | Clear | Local(output: string) | AskBrain(command: string)

  /** What the session logs for the defender after each command: the
      scenario's host name, the client address, the command and the working
      directory after the command. */
  function LogEntryOf(hostname: string, ip: string, command: string, cwd: string): LogEntry {
    LogEntry(Some(hostname), Some(ip), Some(command), Some(cwd))
  }

  /** The defender keys the entry by `<hostname>|<ip>`, reads the command
      back unchanged (it is already stripped) and the directory the session
      is in after it. */
  lemma LogEntryRead(hostname: string, ip: string, line: string, cwd: string)
    ensures var e := LogEntryOf(hostname, ip, Strip(line), cwd);
      SessionKey(e, "default", "unknown_ip") == hostname + "|" + ip
      && Command(e) == Strip(line) && GetOr(e.cwd, "/root") == cwd
  {
    var e := LogEntryOf(hostname, ip, Strip(line), cwd);
    assert GetOr(e.scenario, "default") == hostname && GetOr(e.ip, "unknown_ip") == ip;
    assert GetOr(e.cmd, "") == Strip(line);
    StripOfStripped(Strip(line));
  }

  class Session {
    const user: string
    const hostname: string
    var cwd: string
    var history: seq<string>

    /** `handle_connection`'s setup: the home is looked up line by line in
        the scenario's `/etc/passwd`, the first fitting line winning. */
    constructor(user: string, hostname: string, staticFiles: map<string, string>)
      ensures this.user == user && this.hostname == hostname
      ensures cwd == HomeOf(user, if "/etc/passwd" in staticFiles then staticFiles["/etc/passwd"] else "")
      ensures history == []
    {
      this.user := user;
      this.hostname := hostname;
      var passwd := if "/etc/passwd" in staticFiles then staticFiles["/etc/passwd"] else "";
      var lines := SplitLines(passwd);
      var home := DefaultHome(user);
      var i := 0;
      while i < |lines|
        invariant 0 <= i <= |lines|
        invariant PasswdHome(user, lines) == PasswdHome(user, lines[i..])
      {
        assert lines[i..][1..] == lines[i + 1..];
        var parts := SplitOn(lines[i], ':');
        if |parts| >= 6 && parts[0] == user {
          home := parts[5];
          break;
        }
        i := i + 1;
      }
      assert i == |lines| ==> lines[i..] == [];
      cwd := home;
      history := [];
    }

    function PromptText(): string
      reads this
    {
      Prompt(user, hostname, cwd)
    }

    /** One entered (already stripped) line. Blank lines are dropped before
        the history; `exit` and `clear` are recorded and then act; on a
        `linux` scenario `cd` and `wget` are answered here, `wget` adding
        the file to the brain's listing of the directory; everything else
        goes to the brain. */
    method HandleLine(command: string, isLinux: bool, brain: CyberBrain) returns (action: Action)
      modifies this, brain
      ensures command == "" ==> action == Skip && history == old(history)
      ensures command != "" ==> history == old(history) + [command]
      ensures action.Local? && "cd " <= command ==> |SplitWs(command)| >= 2 && cwd == CdTarget(user, old(cwd), SplitWs(command)[1])
      ensures !(action.Local? && "cd " <= command) ==> cwd == old(cwd)
      ensures action.Local? && !("cd " <= command) ==>
        "wget" <= command
        && brain.filesystem == old(brain.filesystem)[cwd := FilesAt(old(brain.View()), cwd) + [WgetName(command)]]
      ensures !(action.Local? && !("cd " <= command)) ==> brain.filesystem == old(brain.filesystem)
      ensures brain.staticFiles == old(brain.staticFiles) && brain.commandCache == old(brain.commandCache)
      ensures command == "exit" ==> action == Exit
      ensures command == "clear" ==> action == Clear
      ensures action.AskBrain? ==> action.command == command
      ensures command !in {"", "exit", "clear"} ==>
        if isLinux && "cd " <= command && |SplitWs(command)| >= 2 then action == Local("")
        else if isLinux && !("cd " <= command) && "wget" <= command then
          SplitWs(command) != [] && action == Local(WgetReply(command))
        else action == AskBrain(command)
    {
      if command == "" {
        return Skip;
      }
      history := history + [command];
      if command == "exit" {
        return Exit;
      }
      if command == "clear" {
        return Clear;
      }
      action := AskBrain(command);
      if isLinux {
        if "cd " <= command {
          var parts := SplitWs(command);
          if |parts| >= 2 {
            cwd := CdTarget(user, cwd, parts[1]);
            action := Local("");
          }
        } else if "wget" <= command {
          WgetHasWord(command);
          var fname := WgetName(command);
          var listing := if cwd in brain.filesystem then brain.filesystem[cwd] else [];
          brain.filesystem := brain.filesystem[cwd := listing + [fname]];
          action := Local(WgetReply(command));
        }
      }
    }
  }
}
