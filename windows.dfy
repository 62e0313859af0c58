/** The sliding windows over a session's commands that every evaluation and
    indexing script builds: a context of at most `L` commands and the
    command that follows it. */
module Windows {

  /** `cmds[max(0, i - L + 1):i + 1]`, the window that ends at command `i`.
      A context length below one leaves it empty, as the Python slice does. */
  function Window<T>(cmds: seq<T>, i: nat, L: int): (r: seq<T>)
    requires i < |cmds|
    ensures |r| <= i + 1 && r == cmds[i + 1 - |r|..i + 1]
  {
    var start := if i - L + 1 < 0 then 0 else i - L + 1;
    if start > i + 1 then [] else cmds[start..i + 1]
  }

  /** With a length of at least one the window is not empty, ends with
      command `i`, holds at most `L` commands, and holds all `L` when enough
      commands precede it. */
  lemma WindowShape<T>(cmds: seq<T>, i: nat, L: int)
    requires i < |cmds| && L >= 1
    ensures var r := Window(cmds, i, L);
      r != [] && r[|r| - 1] == cmds[i] && |r| <= L
      && |r| == (if i + 1 < L then i + 1 else L)
  {
  }

  /** Window `i` followed by command `i + 1` is a run of consecutive
      commands, starting at `start`. */
  lemma WindowRun<T>(cmds: seq<T>, i: nat, L: int) returns (start: nat)
    requires i + 1 < |cmds|
    ensures var r := Window(cmds, i, L);
      start + |r| < |cmds| && cmds[start..start + |r| + 1] == r + [cmds[i + 1]]
  {
    var r := Window(cmds, i, L);
    start := i + 1 - |r|;
    assert cmds[start..i + 2] == cmds[start..i + 1] + [cmds[i + 1]];
  }

  /** `cmds[max(0, j - L):j]`, the commands just before command `j`. */
  function Before<T>(cmds: seq<T>, j: nat, L: int): (r: seq<T>)
    requires j <= |cmds|
    ensures |r| <= j && r == cmds[j - |r|..j]
  {
    var start := if j - L < 0 then 0 else j - L;
    if start > j then [] else cmds[start..j]
  }

  /** The commands before `j` never include command `j` itself, and are at
      most `L`; they are all of them when `j <= L`. */
  lemma BeforeShape<T>(cmds: seq<T>, j: nat, L: int)
    requires j <= |cmds|
    ensures var r := Before(cmds, j, L);
      (L >= 0 ==> |r| == (if j < L then j else L))
      && (L < 0 ==> r == [])
      && forall k :: 0 <= k < |r| ==> r[k] == cmds[j - |r| + k]
  {
  }

  /** The commands before command `j`, followed by command `j`, are a run
      of consecutive commands ending at `j`. */
  lemma BeforeRun<T>(cmds: seq<T>, j: nat, L: int) returns (start: nat)
    requires j < |cmds|
    ensures var r := Before(cmds, j, L);
      start == j - |r| && cmds[start..start + |r| + 1] == r + [cmds[j]]
  {
    var r := Before(cmds, j, L);
    start := j - |r|;
    assert cmds[start..j + 1] == cmds[start..j] + [cmds[j]];
  }
}
