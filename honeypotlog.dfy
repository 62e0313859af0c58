/** The JSON-lines log the honeypot writes and the defenders follow. */
module HoneypotLog {
  import opened Outcomes
  import opened PyText

  /** One log line, reduced to the keys the defenders read. */
  datatype LogEntry = LogEntry(scenario: Option<string>, ip: Option<string>, cmd: Option<string>, cwd: Option<string>)

  /** `entry.get(key, default)` for a string-valued key. */
  function GetOr(o: Option<string>, default: string): (r: string)
    ensures o.Some? ==> r == o.value
    ensures o.None? ==> r == default
  {
    if o.Some? then o.value else default
  }

  /** `entry.get("cmd", "").strip()`. */
  function Command(e: LogEntry): (r: string)
    ensures r == [] || (!IsSpace(r[0]) && !IsSpace(r[|r| - 1]))
  {
    Strip(GetOr(e.cmd, ""))
  }

  /** `f"{scenario}|{ip}"` with the defaults a defender supplies for missing keys. */
  function SessionKey(e: LogEntry, defaultScenario: string, defaultIp: string): string {
    GetOr(e.scenario, defaultScenario) + "|" + GetOr(e.ip, defaultIp)
  }

  /** The first `|` of `a + "|" + b` is the one after `a` when `a` has none. */
  lemma {:induction false} FirstBar(a: string, b: string)
    requires '|' !in a
    ensures Find(a + "|" + b, "|") == |a|
  {
    var s := a + "|" + b;
    if a != [] {
      assert s[0] == a[0] && a[0] in a;
      assert !("|" <= s);
      assert s[1..] == a[1..] + "|" + b;
      FirstBar(a[1..], b);
    } else {
      assert "|" <= s;
    }
  }

  lemma SplitAtBar(a: string, b: string, c: string, d: string)
    requires '|' !in a && '|' !in c
    requires a + "|" + b == c + "|" + d
    ensures a == c && b == d
  {
    FirstBar(a, b);
    FirstBar(c, d);
    var s := a + "|" + b;
    assert a == s[..|a|] && c == s[..|c|];
    assert b == s[|a| + 1..] && d == s[|c| + 1..];
  }

  /** Two log entries share a session key exactly when they name the same
      scenario and the same address, provided scenario names have no `|`. */
  lemma SessionKeyInjective(e1: LogEntry, e2: LogEntry, ds: string, di: string)
    requires '|' !in GetOr(e1.scenario, ds) && '|' !in GetOr(e2.scenario, ds)
    ensures SessionKey(e1, ds, di) == SessionKey(e2, ds, di)
        <==> GetOr(e1.scenario, ds) == GetOr(e2.scenario, ds) && GetOr(e1.ip, di) == GetOr(e2.ip, di)
  {
    if SessionKey(e1, ds, di) == SessionKey(e2, ds, di) {
      SplitAtBar(GetOr(e1.scenario, ds), GetOr(e1.ip, di), GetOr(e2.scenario, ds), GetOr(e2.ip, di));
    }
  }

  /** The entries `follow_log` yields from the lines appended to the log:
      blank lines and lines `json.loads` rejects (`decode` gives `None`) are skipped. */
  function LogEntries(lines: seq<string>, decode: string -> Option<LogEntry>): (r: seq<LogEntry>)
    ensures |r| <= |lines|
    ensures forall e :: e in r ==> exists l :: l in lines && Strip(l) != "" && decode(Strip(l)) == Some(e)
  {
    if lines == [] then []
    else
      var l := Strip(lines[0]);
      (if l != "" && decode(l).Some? then [decode(l).value] else []) + LogEntries(lines[1..], decode)
  }
}
