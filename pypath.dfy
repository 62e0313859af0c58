/** `posixpath` and `pathlib.PurePosixPath` string operations. */
module PyPath {
  import opened PyText
  import opened Seqs

  predicate IsAbs(p: string) { "/" <= p }

  /** A component `normpath` keeps in an absolute result: no empty, `.` or `..` part. */
  predicate ProperName(c: string) { c != "" && c != "." && c != ".." && '/' !in c }

  /** `posixpath.join(a, b)` for two arguments. */
  function JoinPath(a: string, b: string): (r: string)
    ensures IsAbs(b) ==> r == b
    ensures !IsAbs(b) ==> a <= r && |b| <= |r| && r[|r| - |b|..] == b
  {
    if IsAbs(b) then b
    else if a == "" || a[|a| - 1] == '/' then a + b
    else a + "/" + b
  }

  /** The leading slashes `normpath` keeps: exactly two are kept, any other
      positive number collapses to one. */
  function LeadingSlashes(p: string): string {
    if "//" <= p && !("///" <= p) then "//" else if "/" <= p then "/" else ""
  }

  /** The component loop of `normpath`: `acc` holds the components kept so far. */
  function Collapse(comps: seq<string>, absolute: bool, acc: seq<string>): seq<string>
  {
    if comps == [] then acc
    else
      var c := comps[0];
      var next :=
        if c == "" || c == "." then acc
        else if c != ".." || (!absolute && acc == []) || (acc != [] && acc[|acc| - 1] == "..") then acc + [c]
        else if acc != [] then acc[..|acc| - 1]
        else acc;
      Collapse(comps[1..], absolute, next)
  }

  function NormComponents(p: string): seq<string> {
    Collapse(SplitOn(p, '/'), LeadingSlashes(p) != "", [])
  }

  /** `posixpath.normpath(p)`. */
  function NormPath(p: string): (r: string)
    ensures r != []
  {
    if p == "" then "."
    else
      var s := LeadingSlashes(p) + Join(NormComponents(p), "/");
      if s == "" then "." else s
  }

  lemma {:induction false} CollapseProper(comps: seq<string>, acc: seq<string>)
    requires forall k :: 0 <= k < |comps| ==> '/' !in comps[k]
    requires forall k :: 0 <= k < |acc| ==> ProperName(acc[k])
    ensures forall k :: 0 <= k < |Collapse(comps, true, acc)| ==> ProperName(Collapse(comps, true, acc)[k])
  {
    if comps != [] {
      var c := comps[0];
      var next :=
        if c == "" || c == "." then acc
        else if c != ".." || (!true && acc == []) || (acc != [] && acc[|acc| - 1] == "..") then acc + [c]
        else if acc != [] then acc[..|acc| - 1]
        else acc;
      assert forall k :: 0 <= k < |next| ==> ProperName(next[k]);
      CollapseProper(comps[1..], next);
    }
  }

  /** An absolute path normalises to an absolute path made of proper names
      only: every `.`, `..` and empty component has been resolved away. */
  lemma NormPathAbsolute(p: string)
    requires IsAbs(p)
    ensures IsAbs(NormPath(p))
    ensures NormPath(p) == LeadingSlashes(p) + Join(NormComponents(p), "/")
    ensures forall k :: 0 <= k < |NormComponents(p)| ==> ProperName(NormComponents(p)[k])
  {
    CollapseProper(SplitOn(p, '/'), []);
  }

  /** `posixpath.basename(p)`: what follows the last `/`. */
  function BaseName(p: string): (r: string)
    ensures '/' !in r
    ensures |r| <= |p| && r == p[|p| - |r|..]
  {
    var i := RFindChar(p, '/') + 1;
    assert forall j :: 0 <= j < |p[i..]| ==> p[i..][j] == p[i + j];
    p[i..]
  }

  predicate AllSlashes(s: string) { forall i :: 0 <= i < |s| ==> s[i] == '/' }

  /** `posixpath.dirname(p)`: up to the last `/`, without its trailing slashes
      unless it consists of slashes only. */
  function DirName(p: string): (r: string)
    ensures r <= p
    ensures '/' !in p ==> r == ""
  {
    var head := p[..RFindChar(p, '/') + 1];
    if head != "" && !AllSlashes(head) then RStripChars(head, {'/'}) else head
  }

  /** The root and parts `pathlib.PurePosixPath` parses out of `p`. */
  function PathRoot(p: string): string {
    if !("/" <= p) then "" else if !("//" <= p) || "///" <= p then "/" else "//"
  }

  function PathParts(p: string): (r: seq<string>)
    ensures forall k :: 0 <= k < |r| ==> r[k] != "" && r[k] != "." && '/' !in r[k]
  {
    Filter(SplitOn(p, '/'), (x: string) => x != "" && x != ".")
  }

  /** `str(PurePosixPath(p))`. */
  function PathStr(p: string): string {
    var s := PathRoot(p) + Join(PathParts(p), "/");
    if s == "" then "." else s
  }

  /** `PurePosixPath(p).name`: the last part, or "" when there is none. */
  function PathName(p: string): (r: string)
    ensures r == "" || (r != "." && '/' !in r)
  {
    var parts := PathParts(p);
    if parts == [] then "" else parts[|parts| - 1]
  }
}
