/** `normalize_command` of the Cowrie dataset tools: a fixed chain of regular
    expression substitutions that masks secrets, file names, URLs and
    addresses in one attacker command, then collapses its white space.
    Each pattern is modelled by a matcher that says where the match the
    regular expression engine finds at a position ends, if there is one;
    `Sub` then scans left to right exactly as `re.sub` does. */
module CowrieNormalize {
  import opened Outcomes
  import opened PyText

  /** `s[i:].startswith(p)`. */
  predicate At(s: string, i: nat, p: string) {
    i + |p| <= |s| && s[i..i + |p|] == p
  }

  /** Length of the run of characters satisfying `p` that starts at `i`:
      what a greedy `[...]*` consumes there. */
  function RunFrom(s: string, i: nat, p: char -> bool): (n: nat)
    requires i <= |s|
    ensures i + n <= |s|
    decreases |s| - i
  {
    if i < |s| && p(s[i]) then 1 + RunFrom(s, i + 1, p) else 0
  }

  /** The run is as long as it can be: every character in it satisfies `p`
      and the one after it, if any, does not. */
  lemma {:induction false} RunFromMaximal(s: string, i: nat, p: char -> bool)
    requires i <= |s|
    ensures forall k :: i <= k < i + RunFrom(s, i, p) ==> p(s[k])
    ensures i + RunFrom(s, i, p) == |s| || !p(s[i + RunFrom(s, i, p)])
    decreases |s| - i
  {
    if i < |s| && p(s[i]) {
      RunFromMaximal(s, i + 1, p);
    }
  }

  /** A run of `n` characters satisfying `p` that ends the text or stops
      at one that does not is what the run from `i` measures. */
  lemma {:induction false} RunFromIs(s: string, i: nat, p: char -> bool, n: nat)
    requires i + n <= |s|
    requires forall k :: i <= k < i + n ==> p(s[k])
    requires i + n == |s| || !p(s[i + n])
    ensures RunFrom(s, i, p) == n
    decreases n
  {
    if n > 0 {
      RunFromIs(s, i + 1, p, n - 1);
    }
  }

  /** `\b`: exactly one side of position `i` is a word character. */
  predicate WordBoundary(s: string, i: nat)
    requires i <= |s|
  {
    (i > 0 && IsWordChar(s[i - 1])) != (i < |s| && IsWordChar(s[i]))
  }

  predicate NotQuote(c: char) { c != '"' }

  predicate NotSpace(c: char) { !IsSpace(c) }

  /** `[\.\w-]`, the characters of a file name. */
  predicate FileChar(c: char) { IsWordChar(c) || c == '.' || c == '-' }

  /** A matcher gives, for a text and a position, the end of the match that
      starts there, if any. */
  type Matcher = (string, nat) -> Option<nat>

  /** `re.sub(pattern, rep, s[i:])` for a pattern that never matches the
      empty text: a match `[i, e)` is replaced and the scan resumes at `e`;
      elsewhere one character is copied and the scan moves on by one. */
  function SubFrom(s: string, i: nat, m: Matcher, rep: string): (r: string)
    requires i <= |s|
    decreases |s| - i
  {
    if i == |s| then ""
    else match m(s, i)
      case Some(e) =>
        if i < e <= |s| then rep + SubFrom(s, e, m, rep) else [s[i]] + SubFrom(s, i + 1, m, rep)
      case None => [s[i]] + SubFrom(s, i + 1, m, rep)
  }

  function Sub(s: string, m: Matcher, rep: string): string {
    SubFrom(s, 0, m, rep)
  }

  // ---------------------------------------------------------------------
  // The patterns, in the order `normalize_command` applies them
  // ---------------------------------------------------------------------

  /** `^CMD:\s*` removed from the start of the text. */
  function DropCmdTag(s: string): (r: string)
    ensures At(s, 0, "CMD:") ==> r == s[4 + RunFrom(s, 4, IsSpace)..]
    ensures !At(s, 0, "CMD:") ==> r == s
  {
    if At(s, 0, "CMD:") then s[4 + RunFrom(s, 4, IsSpace)..] else s
  }

  /** `echo\s+-e\s+"[^"]+"(\|passwd\|bash)?` */
  function EchoDashE(s: string, i: nat): (r: Option<nat>)
    ensures r.Some? ==> i < r.value <= |s|
  {
    if !At(s, i, "echo") then None
    else
      var w1 := RunFrom(s, i + 4, IsSpace);
      if w1 == 0 || !At(s, i + 4 + w1, "-e") then None
      else
        var b := i + 4 + w1 + 2;
        var w2 := RunFrom(s, b, IsSpace);
        if w2 == 0 || !At(s, b + w2, "\"") then None
        else
          var n := RunFrom(s, b + w2 + 1, NotQuote);
          var close := b + w2 + 1 + n;
          if n == 0 || close == |s| then None
          else if At(s, close + 1, "|passwd|bash") then Some(close + 13)
          else Some(close + 1)
  }

  /** `echo\s+"[^"]+"\|passwd` */
  function EchoPasswd(s: string, i: nat): (r: Option<nat>)
    ensures r.Some? ==> i < r.value <= |s|
  {
    if !At(s, i, "echo") then None
    else
      var w := RunFrom(s, i + 4, IsSpace);
      if w == 0 || !At(s, i + 4 + w, "\"") then None
      else
        var n := RunFrom(s, i + 5 + w, NotQuote);
        var close := i + 5 + w + n;
        if n == 0 || close == |s| || !At(s, close + 1, "|passwd") then None
        else Some(close + 8)
  }

  /** End of the last three digits in `s[a..e]`: where `[\.\w-]*\d{3,}`
      stops once the star has given back just enough characters. */
  function TripleEnd(s: string, a: nat, e: nat): (r: Option<nat>)
    requires a <= e <= |s|
    ensures r.Some? ==> a + 3 <= r.value <= e
    decreases e - a
  {
    if e < a + 3 then None
    else if IsDigit(s[e - 3]) && IsDigit(s[e - 2]) && IsDigit(s[e - 1]) then Some(e)
    else TripleEnd(s, a, e - 1)
  }

  /** `<dir>[\.\w-]*\d{3,}` for a directory prefix such as `/tmp/`. */
  function TmpFile(s: string, i: nat, dir: string): (r: Option<nat>)
    ensures r.Some? ==> i < r.value <= |s|
    ensures r.Some? ==> At(s, i, dir)
  {
    if dir == [] || !At(s, i, dir) then None
    else
      var a := i + |dir|;
      TripleEnd(s, a, a + RunFrom(s, a, FileChar))
  }

  const VAR_TMP := "/var/tmp/"
  const TMP := "/tmp/"

  function VarTmpFile(s: string, i: nat): (r: Option<nat>)
    ensures r.Some? ==> i < r.value <= |s| && At(s, i, VAR_TMP)
  {
    TmpFile(s, i, VAR_TMP)
  }

  function TmpDirFile(s: string, i: nat): (r: Option<nat>)
    ensures r.Some? ==> i < r.value <= |s| && At(s, i, TMP)
  {
    TmpFile(s, i, TMP)
  }

  /** The extensions `<FILE>` masks, in the order the alternation tries them. */
  const EXTENSIONS: seq<string> := ["log", "txt", "sh", "bin", "exe", "tgz", "gz"]

  /** `(log|txt|...)\b` at `p`: the end after the first extension that fits. */
  function ExtFrom(s: string, p: nat, exts: seq<string>): (r: Option<nat>)
    requires p <= |s|
    ensures r.Some? ==> p < r.value <= |s| && IsAsciiLetter(s[p])
  {
    if exts == [] then None
    else if exts[0] != [] && IsAsciiLetter(exts[0][0]) && At(s, p, exts[0]) && WordBoundary(s, p + |exts[0]|)
    then Some(p + |exts[0]|)
    else ExtFrom(s, p, exts[1..])
  }

  /** `\.(log|txt|...)\b` at `p`. */
  function DotExt(s: string, p: nat): (r: Option<nat>)
    requires p <= |s|
    ensures r.Some? ==> p + 1 < r.value <= |s| && s[p] == '.' && IsAsciiLetter(s[p + 1])
  {
    if p < |s| && s[p] == '.' then ExtFrom(s, p + 1, EXTENSIONS) else None
  }

  /** The greedy `[\w\.-]+` from `i` gives back characters one at a time
      until a dotted extension follows: `j` is how many it still holds. */
  function FileSearch(s: string, i: nat, j: nat): (r: Option<nat>)
    requires i + j <= |s|
    ensures r.Some? ==> exists k :: i < k <= i + j && k + 1 < r.value <= |s| && s[k] == '.' && IsAsciiLetter(s[k + 1])
    decreases j
  {
    if j == 0 then None
    else match DotExt(s, i + j)
      case Some(e) => Some(e)
      case None => FileSearch(s, i, j - 1)
  }

  /** `\b[\w\.-]+\.(log|txt|sh|bin|exe|tgz|gz)\b` */
  function FileName(s: string, i: nat): (r: Option<nat>)
    ensures r.Some? ==> i < r.value <= |s|
    ensures r.Some? ==> WordBoundary(s, i) && FileChar(s[i])
    ensures r.Some? ==> exists k :: i < k && k + 1 < |s| && k <= i + RunFrom(s, i, FileChar) && s[k] == '.' && IsAsciiLetter(s[k + 1])
  {
    if i < |s| && FileChar(s[i]) && WordBoundary(s, i) then FileSearch(s, i, RunFrom(s, i, FileChar))
    else None
  }

  /** `(https?|ftp)://\S+` */
  function Url(s: string, i: nat): (r: Option<nat>)
    ensures r.Some? ==> i < r.value <= |s|
    ensures r.Some? ==> At(s, i, "http://") || At(s, i, "https://") || At(s, i, "ftp://")
  {
    var p := if At(s, i, "https://") then i + 8
      else if At(s, i, "http://") then i + 7
      else if At(s, i, "ftp://") then i + 6
      else 0;
    if p == 0 then None
    else
      var n := RunFrom(s, p, NotSpace);
      if n == 0 then None else Some(p + n)
  }

  /** `\d{1,3}` that is followed by no further digit, from `p`. */
  function DigitGroup(s: string, p: nat): (r: Option<nat>)
    ensures r.Some? ==> p < r.value <= p + 3 && r.value <= |s| && IsDigit(s[p])
  {
    if p > |s| then None
    else
      var d := RunFrom(s, p, IsDigit);
      if 1 <= d <= 3 then Some(p + d) else None
  }

  /** `\d{1,3}(?:\.\d{1,3}){n-1}` from `p`: the end of `n` digit groups
      with a dot between each two. */
  function Groups(s: string, p: nat, n: nat): (r: Option<nat>)
    requires n >= 1
    ensures r.Some? ==> p < r.value <= |s| && IsDigit(s[p])
    decreases n
  {
    match DigitGroup(s, p)
      case None => None
      case Some(a) =>
        if n == 1 then Some(a)
        else if !At(s, a, ".") then None
        else Groups(s, a + 1, n - 1)
  }

  /** `\b\d{1,3}(?:\.\d{1,3}){3}\b`: a group of more than three digits
      never fits, because giving digits back leaves a digit where a dot or
      a word boundary is needed. */
  function Ip(s: string, i: nat): (r: Option<nat>)
    ensures r.Some? ==> i < r.value <= |s| && IsDigit(s[i])
    ensures r.Some? ==> (i == 0 || !IsWordChar(s[i - 1])) && (r.value == |s| || !IsWordChar(s[r.value]))
  {
    if i >= |s| || (i > 0 && IsWordChar(s[i - 1])) then None
    else match Groups(s, i, 4)
      case None => None
      case Some(e) => if e == |s| || !IsWordChar(s[e]) then Some(e) else None
  }

  /** `echo\s+"admin\s+[^"]+"`: the blanks and the secret share the text up
      to the closing quote, which must hold a blank and one more character. */
  function EchoAdmin(s: string, i: nat): (r: Option<nat>)
    ensures r.Some? ==> i < r.value <= |s|
  {
    if !At(s, i, "echo") then None
    else
      var w := RunFrom(s, i + 4, IsSpace);
      var p := i + 4 + w + 6;
      if w == 0 || !At(s, i + 4 + w, "\"admin") || p == |s| || !IsSpace(s[p]) then None
      else
        var n := RunFrom(s, p, NotQuote);
        if n < 2 || p + n == |s| then None else Some(p + n + 1)
  }

  const SECRET_PASSWD := "echo <SECRET>|passwd"
  const SECRET_ADMIN := "echo \"admin <SECRET>\""

  /** `normalize_command` in its four stages: the `CMD:` tag, the echoed
      passwords, the file names, the addresses, and the admin password. */
  function Tagless(cmd: string): string {
    DropCmdTag(Strip(cmd))
  }

  function EchoMasked(s: string): string {
    Sub(Sub(s, EchoDashE, SECRET_PASSWD), EchoPasswd, SECRET_PASSWD)
  }

  function FilesMasked(s: string): string {
    Sub(Sub(Sub(s, VarTmpFile, "/var/tmp/<FILE>"), TmpDirFile, "/tmp/<FILE>"), FileName, "<FILE>")
  }

  function AddressesMasked(s: string): string {
    Sub(Sub(s, Url, "<URL>"), Ip, "<IP>")
  }

  /** Every substitution of `normalize_command` except the final collapse
      of white space. */
  function Masked(cmd: string): string {
    Sub(AddressesMasked(FilesMasked(EchoMasked(Tagless(cmd)))), EchoAdmin, SECRET_ADMIN)
  }

  /** `normalize_command(cmd)`: the masked command with every run of white
      space made one blank and the ends stripped. It is single-spaced, so it
      has no blank at either end and no line break. */
  function NormalizeCommand(cmd: string): (r: string)
    ensures SingleSpaced(r)
    ensures r == [] || (!IsSpace(r[0]) && !IsSpace(r[|r| - 1]))
    ensures forall i :: 0 <= i < |r| ==> !IsLineBreak(r[i])
  {
    var masked := Masked(cmd);
    CollapsedSingleSpaced(masked);
    SingleSpacedShape(Join(SplitWs(masked), " "));
    Join(SplitWs(masked), " ")
  }

  // ---------------------------------------------------------------------
  // How the scan behaves
  // ---------------------------------------------------------------------

  lemma AtIndex(s: string, i: nat, p: string, k: nat)
    requires At(s, i, p) && k < |p|
    ensures s[i + k] == p[k]
  {
    assert s[i..i + |p|][k] == s[i + k];
  }

  /** Where no match starts in `[i, k)`, the scan copies those characters. */
  lemma {:induction false} SubFromCopies(s: string, i: nat, k: nat, m: Matcher, rep: string)
    requires i <= k <= |s|
    requires forall j :: i <= j < k ==> m(s, j).None?
    ensures SubFrom(s, i, m, rep) == s[i..k] + SubFrom(s, k, m, rep)
    decreases k - i
  {
    if i < k {
      SubFromCopies(s, i + 1, k, m, rep);
      assert m(s, i).None?;
      assert SubFrom(s, i, m, rep) == [s[i]] + SubFrom(s, i + 1, m, rep);
      assert s[i..k] == [s[i]] + s[i + 1..k];
    }
  }

  /** A pattern that matches nowhere leaves the text as it is. */
  lemma SubNoMatch(s: string, m: Matcher, rep: string)
    requires forall j :: 0 <= j < |s| ==> m(s, j).None?
    ensures Sub(s, m, rep) == s
  {
    SubFromCopies(s, 0, |s|, m, rep);
    assert s[0..|s|] == s;
  }

  /** With a blank-free replacement, a blank-free text stays blank-free,
      and what is left of a non-empty rest is non-empty. */
  lemma {:induction false} SubFromNoSpace(s: string, i: nat, m: Matcher, rep: string)
    requires i <= |s| && NoSpace(s) && NoSpace(rep) && rep != []
    ensures NoSpace(SubFrom(s, i, m, rep))
    ensures i < |s| ==> SubFrom(s, i, m, rep) != []
    decreases |s| - i
  {
    if i < |s| {
      var e := if m(s, i).Some? && i < m(s, i).value <= |s| then m(s, i).value else i + 1;
      SubFromNoSpace(s, e, m, rep);
      var head := if m(s, i).Some? && i < m(s, i).value <= |s| then rep else [s[i]];
      assert SubFrom(s, i, m, rep) == head + SubFrom(s, e, m, rep);
    }
  }

  /** The three echo patterns need a blank after `echo`. */
  lemma EchoNeedsBlank(s: string, i: nat)
    requires NoSpace(s)
    ensures EchoDashE(s, i).None? && EchoPasswd(s, i).None? && EchoAdmin(s, i).None?
  {
    if At(s, i, "echo") {
      assert RunFrom(s, i + 4, IsSpace) == 0;
    }
  }

  lemma EchoNoMatch(s: string)
    requires NoSpace(s)
    ensures Sub(s, EchoDashE, SECRET_PASSWD) == s
    ensures Sub(s, EchoPasswd, SECRET_PASSWD) == s
    ensures Sub(s, EchoAdmin, SECRET_ADMIN) == s
  {
    forall j | 0 <= j < |s| ensures EchoDashE(s, j).None? && EchoPasswd(s, j).None? && EchoAdmin(s, j).None? {
      EchoNeedsBlank(s, j);
    }
    SubNoMatch(s, EchoDashE, SECRET_PASSWD);
    SubNoMatch(s, EchoPasswd, SECRET_PASSWD);
    SubNoMatch(s, EchoAdmin, SECRET_ADMIN);
  }

  /** The two temporary-file patterns start with a slash and a letter. */
  lemma TmpMatchStart(s: string, i: nat)
    ensures VarTmpFile(s, i).Some? ==> i + 1 < |s| && s[i] == '/' && IsAsciiLetter(s[i + 1])
    ensures TmpDirFile(s, i).Some? ==> i + 1 < |s| && s[i] == '/' && IsAsciiLetter(s[i + 1])
  {
    if VarTmpFile(s, i).Some? {
      AtIndex(s, i, VAR_TMP, 0);
      AtIndex(s, i, VAR_TMP, 1);
    }
    if TmpDirFile(s, i).Some? {
      AtIndex(s, i, TMP, 0);
      AtIndex(s, i, TMP, 1);
    }
  }

  /** A URL pattern needs a colon. */
  lemma UrlMatchColon(s: string, i: nat)
    ensures Url(s, i).Some? ==> exists k :: i < k < |s| && s[k] == ':'
  {
    if At(s, i, "https://") {
      AtIndex(s, i, "https://", 5);
    } else if At(s, i, "http://") {
      AtIndex(s, i, "http://", 4);
    } else if At(s, i, "ftp://") {
      AtIndex(s, i, "ftp://", 3);
    }
  }

  /** The masking patterns other than the echo ones leave a text alone
      that has no slash, no dot, no colon and no digit. */
  lemma PlainNoMatch(s: string)
    requires forall k :: 0 <= k < |s| ==> s[k] != '/' && s[k] != '.' && s[k] != ':' && !IsDigit(s[k])
    ensures Sub(s, VarTmpFile, "/var/tmp/<FILE>") == s
    ensures Sub(s, TmpDirFile, "/tmp/<FILE>") == s
    ensures Sub(s, FileName, "<FILE>") == s
    ensures Sub(s, Url, "<URL>") == s
    ensures Sub(s, Ip, "<IP>") == s
  {
    forall j | 0 <= j < |s|
      ensures VarTmpFile(s, j).None? && TmpDirFile(s, j).None? && FileName(s, j).None?
      ensures Url(s, j).None? && Ip(s, j).None?
    {
      TmpMatchStart(s, j);
      UrlMatchColon(s, j);
    }
    SubNoMatch(s, VarTmpFile, "/var/tmp/<FILE>");
    SubNoMatch(s, TmpDirFile, "/tmp/<FILE>");
    SubNoMatch(s, FileName, "<FILE>");
    SubNoMatch(s, Url, "<URL>");
    SubNoMatch(s, Ip, "<IP>");
  }

  /** A blank-free word is its own collapsed form. */
  lemma CollapseWord(w: string)
    requires w != [] && NoSpace(w)
    ensures Join(SplitWs(w), " ") == w
  {
    SplitWsWord(w);
  }

  // ---------------------------------------------------------------------
  // What normalisation promises
  // ---------------------------------------------------------------------

  predicate Stripped(s: string) {
    s == [] || (!IsSpace(s[0]) && !IsSpace(s[|s| - 1]))
  }

  /** The `CMD:` tag Cowrie puts in front of some commands, with any blanks
      after it, makes no difference to the normal form. */
  lemma CmdTagIgnored(blanks: string, c: string)
    requires AllSpace(blanks) && Stripped(c) && !At(c, 0, "CMD:")
    ensures NormalizeCommand("CMD:" + blanks + c) == NormalizeCommand(c)
  {
    StripOfStripped(c);
    assert Tagless(c) == c;
    if c == [] {
      BareTag(blanks);
    } else {
      TagThenWord(blanks, c);
    }
  }

  /** A tag with nothing after it but blanks leaves nothing. */
  lemma BareTag(blanks: string)
    requires AllSpace(blanks)
    ensures Tagless("CMD:" + blanks + "") == ""
  {
    var x := "CMD:" + blanks + "";
    assert x[..4] == "CMD:";
    var r := Strip(x);
    assert LStrip(x) == x;
    assert !IsSpace(x[3]) && forall k :: 4 <= k < |x| ==> IsSpace(x[k]);
    assert |r| == 4;
    assert r == "CMD:";
    assert At(r, 0, "CMD:") && RunFrom(r, 4, IsSpace) == 0;
  }

  /** The tag and the blanks after it are cut off a stripped command. */
  lemma TagThenWord(blanks: string, c: string)
    requires AllSpace(blanks) && c != [] && Stripped(c)
    ensures Tagless("CMD:" + blanks + c) == c
  {
    var x := "CMD:" + blanks + c;
    assert x[..4] == "CMD:";
    assert x[|x| - 1] == c[|c| - 1];
    StripOfStripped(x);
    assert At(x, 0, "CMD:");
    assert forall k :: 4 <= k < 4 + |blanks| ==> x[k] == blanks[k - 4];
    assert x[4 + |blanks|] == c[0];
    RunFromIs(x, 4, IsSpace, |blanks|);
    assert x[4 + |blanks|..] == c;
  }

  /** The schemes the URL pattern accepts, without their `://`. */
  const SCHEMES: set<string> := {"http", "https", "ftp"}

  /** Facts about `scheme + "://" + u` used along the chain of patterns. */
  lemma UrlText(scheme: string, u: string, y: string)
    requires scheme in SCHEMES && y == scheme + "://" + u
    ensures |scheme| >= 3 && |y| == |scheme| + 3 + |u|
    ensures forall k :: 0 <= k < |scheme| ==> y[k] == scheme[k] && IsAsciiLetter(y[k])
    ensures y[0] == 'h' || y[0] == 'f'
    ensures y[|scheme|] == ':' && y[|scheme| + 1] == '/' && y[|scheme| + 2] == '/'
    ensures forall k :: 0 <= k < |u| ==> y[|scheme| + 3 + k] == u[k]
    ensures y[..|scheme| + 3] == scheme + "://"
  {
    assert y[..|scheme| + 3] == scheme + "://";
  }

  lemma UrlTextNoSpace(scheme: string, u: string, y: string)
    requires scheme in SCHEMES && y == scheme + "://" + u && NoSpace(u)
    ensures NoSpace(y)
  {
    UrlText(scheme, u, y);
    forall k | 0 <= k < |y| ensures !IsSpace(y[k]) {
      if k >= |scheme| + 3 {
        assert y[k] == u[k - |scheme| - 3];
      }
    }
  }

  /** A pattern that can only start at a slash followed by a letter keeps
      the scheme of a URL, and what follows stays blank-free. */
  lemma SlashLetterKeepsUrl(scheme: string, u: string, y: string, m: Matcher, rep: string) returns (v: string)
    requires scheme in SCHEMES && y == scheme + "://" + u && u != [] && NoSpace(u)
    requires |rep| >= 2 && rep[0] == '/' && NoSpace(rep)
    requires forall j :: 0 <= j < |y| && m(y, j).Some? ==> j + 1 < |y| && y[j] == '/' && IsAsciiLetter(y[j + 1])
    ensures Sub(y, m, rep) == scheme + "://" + v && v != [] && NoSpace(v)
  {
    UrlText(scheme, u, y);
    UrlTextNoSpace(scheme, u, y);
    var k := |scheme| + 2;
    forall j | 0 <= j < k ensures m(y, j).None? {
      assert y[j] != '/' || !IsAsciiLetter(y[j + 1]);
    }
    SubFromCopies(y, 0, k, m, rep);
    v := SlashHead(y, k, m, rep);
    assert y[0..k] + "/" == scheme + "://" by {
      assert y[0..k] + "/" == y[..k + 1];
    }
    Regroup(y[0..k], "/", scheme + "://", v);
  }

  lemma Regroup<T>(a: seq<T>, b: seq<T>, c: seq<T>, d: seq<T>)
    requires a + b == c
    ensures a + (b + d) == c + d
  {
  }

  /** From a slash that is not the last character of a blank-free text, a
      scan whose replacement starts with a slash gives a slash and then
      something non-empty and blank-free. */
  lemma SlashHead(y: string, k: nat, m: Matcher, rep: string) returns (v: string)
    requires k + 1 < |y| && y[k] == '/' && NoSpace(y)
    requires |rep| >= 2 && rep[0] == '/' && NoSpace(rep)
    ensures SubFrom(y, k, m, rep) == "/" + v && v != [] && NoSpace(v)
  {
    SubFromNoSpace(y, k, m, rep);
    var t := SubFrom(y, k, m, rep);
    if m(y, k).Some? && k < m(y, k).value <= |y| {
      var e := m(y, k).value;
      SubFromNoSpace(y, e, m, rep);
      assert t == rep + SubFrom(y, e, m, rep);
    } else {
      SubFromNoSpace(y, k + 1, m, rep);
      assert t == [y[k]] + SubFrom(y, k + 1, m, rep);
    }
    assert |t| >= 2 && t[0] == '/';
    v := t[1..];
    assert t == "/" + v;
  }

  /** The placeholders hold no white space. */
  lemma PlaceholdersNoSpace()
    ensures NoSpace("<FILE>") && NoSpace("<URL>") && NoSpace("<IP>")
    ensures NoSpace("/var/tmp/<FILE>") && NoSpace("/tmp/<FILE>")
  {
  }

  lemma FileNameNotInScheme(scheme: string, u: string, y: string, j: nat)
    requires scheme in SCHEMES && y == scheme + "://" + u && j < |scheme| + 3
    ensures FileName(y, j).None?
  {
    UrlText(scheme, u, y);
    if j == 0 {
      assert !FileChar(y[|scheme|]);
      RunFromMaximal(y, 0, FileChar);
      assert RunFrom(y, 0, FileChar) <= |scheme|;
    } else if j < |scheme| {
      assert IsWordChar(y[j - 1]) && IsWordChar(y[j]);
    } else {
      assert !FileChar(y[j]);
    }
  }

  /** The file-name pattern cannot start inside a URL scheme: the letters
      of the scheme are followed by a colon, not by a dot. */
  lemma FileNameKeepsUrl(scheme: string, u: string, y: string) returns (v: string)
    requires scheme in SCHEMES && y == scheme + "://" + u && u != [] && NoSpace(u)
    ensures Sub(y, FileName, "<FILE>") == scheme + "://" + v && v != [] && NoSpace(v)
  {
    UrlText(scheme, u, y);
    UrlTextNoSpace(scheme, u, y);
    var k := |scheme| + 3;
    forall j | 0 <= j < k ensures FileName(y, j).None? {
      FileNameNotInScheme(scheme, u, y, j);
    }
    SubFromCopies(y, 0, k, FileName, "<FILE>");
    PlaceholdersNoSpace();
    SubFromNoSpace(y, k, FileName, "<FILE>");
    v := SubFrom(y, k, FileName, "<FILE>");
    assert y[0..k] == scheme + "://";
  }

  /** `scheme://rest`, blank-free, is one match of the URL pattern. */
  lemma UrlWhole(scheme: string, v: string, y: string)
    requires scheme in SCHEMES && y == scheme + "://" + v && v != [] && NoSpace(v)
    ensures Url(y, 0) == Some(|y|)
    ensures Sub(y, Url, "<URL>") == "<URL>"
  {
    UrlTextNoSpace(scheme, v, y);
    var p := SchemeEnd(scheme, v, y);
    RunFromIs(y, p, NotSpace, |y| - p);
    assert SubFrom(y, |y|, Url, "<URL>") == "";
  }

  /** Where the URL pattern starts looking for the address: just after the
      `://` of the scheme. */
  lemma SchemeEnd(scheme: string, v: string, y: string) returns (p: nat)
    requires scheme in SCHEMES && y == scheme + "://" + v
    ensures p == |scheme| + 3 && p <= |y|
    ensures p == if At(y, 0, "https://") then 8
      else if At(y, 0, "http://") then 7
      else if At(y, 0, "ftp://") then 6
      else 0
  {
    UrlText(scheme, v, y);
    p := |scheme| + 3;
    if scheme == "http" {
      assert !At(y, 0, "https://") by { assert y[4] != "https://"[4]; }
      assert At(y, 0, "http://");
    } else if scheme == "https" {
      assert At(y, 0, "https://");
    } else {
      assert !At(y, 0, "https://") && !At(y, 0, "http://");
      assert At(y, 0, "ftp://");
    }
  }

  /** A command that is one URL, with any of the three schemes, normalises
      to the `<URL>` placeholder, whatever the address holds. */
  lemma UrlMasked(scheme: string, rest: string)
    requires scheme in SCHEMES && rest != [] && NoSpace(rest)
    ensures NormalizeCommand(scheme + "://" + rest) == "<URL>"
  {
    UrlStages(scheme, rest, scheme + "://" + rest);
    PlaceholderSteps();
  }

  lemma UrlStages(scheme: string, rest: string, x: string)
    requires scheme in SCHEMES && rest != [] && NoSpace(rest) && x == scheme + "://" + rest
    ensures Masked(x) == "<URL>"
  {
    UrlText(scheme, rest, x);
    UrlTextNoSpace(scheme, rest, x);
    assert Tagless(x) == x by {
      assert x[|x| - 1] == rest[|rest| - 1];
      StripOfStripped(x);
      assert x[..4][0] == x[0];
    }
    assert EchoMasked(x) == x by {
      EchoNoMatch(x);
    }
    var v := FilesKeepUrl(scheme, rest, x);
    assert AddressesMasked(FilesMasked(x)) == "<URL>" by {
      UrlWhole(scheme, v, FilesMasked(x));
      PlaceholderSteps();
    }
    PlaceholderSteps();
  }

  /** The three file patterns leave a URL a URL. */
  lemma FilesKeepUrl(scheme: string, rest: string, x: string) returns (v: string)
    requires scheme in SCHEMES && rest != [] && NoSpace(rest) && x == scheme + "://" + rest
    ensures FilesMasked(x) == scheme + "://" + v && v != [] && NoSpace(v)
  {
    PlaceholdersNoSpace();
    forall j | 0 <= j < |x| && VarTmpFile(x, j).Some?
      ensures j + 1 < |x| && x[j] == '/' && IsAsciiLetter(x[j + 1])
    {
      TmpMatchStart(x, j);
    }
    var v4 := SlashLetterKeepsUrl(scheme, rest, x, VarTmpFile, "/var/tmp/<FILE>");
    var y4 := scheme + "://" + v4;
    forall j | 0 <= j < |y4| && TmpDirFile(y4, j).Some?
      ensures j + 1 < |y4| && y4[j] == '/' && IsAsciiLetter(y4[j + 1])
    {
      TmpMatchStart(y4, j);
    }
    var v5 := SlashLetterKeepsUrl(scheme, v4, y4, TmpDirFile, "/tmp/<FILE>");
    v := FileNameKeepsUrl(scheme, v5, scheme + "://" + v5);
  }

  /** One to three decimal digits: a part of a dotted IPv4 address. */
  predicate DigitGroupText(g: string) {
    1 <= |g| <= 3 && forall k :: 0 <= k < |g| ==> IsDigit(g[k])
  }

  predicate DigitsAndDots(s: string) {
    forall k :: 0 <= k < |s| ==> IsDigit(s[k]) || s[k] == '.'
  }

  lemma DigitGroupAt(s: string, p: nat, g: string)
    requires DigitGroupText(g) && p + |g| <= |s| && s[p..p + |g|] == g
    requires p + |g| == |s| || !IsDigit(s[p + |g|])
    ensures DigitGroup(s, p) == Some(p + |g|)
  {
    assert forall k :: p <= k < p + |g| ==> s[k] == g[k - p];
    RunFromIs(s, p, IsDigit, |g|);
  }

  /** Digits and dots give none of the temporary-file, file-name and URL
      patterns a place to start. */
  lemma DottedNoMatch(s: string)
    requires DigitsAndDots(s)
    ensures Sub(s, VarTmpFile, "/var/tmp/<FILE>") == s
    ensures Sub(s, TmpDirFile, "/tmp/<FILE>") == s
    ensures Sub(s, FileName, "<FILE>") == s
    ensures Sub(s, Url, "<URL>") == s
  {
    forall j | 0 <= j < |s|
      ensures VarTmpFile(s, j).None? && TmpDirFile(s, j).None? && FileName(s, j).None? && Url(s, j).None?
    {
      TmpMatchStart(s, j);
      UrlMatchColon(s, j);
    }
    SubNoMatch(s, VarTmpFile, "/var/tmp/<FILE>");
    SubNoMatch(s, TmpDirFile, "/tmp/<FILE>");
    SubNoMatch(s, FileName, "<FILE>");
    SubNoMatch(s, Url, "<URL>");
  }

  /** A command that is one dotted IPv4 address normalises to `<IP>`. */
  lemma IpMasked(a: string, b: string, c: string, d: string)
    requires DigitGroupText(a) && DigitGroupText(b) && DigitGroupText(c) && DigitGroupText(d)
    ensures NormalizeCommand(a + "." + b + "." + c + "." + d) == "<IP>"
  {
    var x := a + "." + b + "." + c + "." + d;
    var d1, d2, d3 := IpAddressText(a, b, c, d, x);
    IpStages(x, d1, d2, d3);
    PlaceholderSteps();
  }

  lemma IpStages(x: string, d1: nat, d2: nat, d3: nat)
    requires DigitsAndDots(x) && x != [] && IsDigit(x[0]) && IsDigit(x[|x| - 1])
    requires DigitGroup(x, 0) == Some(d1) && At(x, d1, ".")
    requires DigitGroup(x, d1 + 1) == Some(d2) && At(x, d2, ".")
    requires DigitGroup(x, d2 + 1) == Some(d3) && At(x, d3, ".")
    requires DigitGroup(x, d3 + 1) == Some(|x|)
    ensures Masked(x) == "<IP>"
  {
    DottedUnmasked(x);
    IpWhole(x, d1, d2, d3);
    PlaceholderSteps();
  }

  /** Digits and dots, starting and ending with a digit, pass the first
      three stages unchanged and are left alone by the URL pattern. */
  lemma DottedUnmasked(x: string)
    requires DigitsAndDots(x) && x != [] && IsDigit(x[0]) && IsDigit(x[|x| - 1])
    ensures FilesMasked(EchoMasked(Tagless(x))) == x
    ensures Sub(x, Url, "<URL>") == x
  {
    assert NoSpace(x);
    assert Tagless(x) == x by {
      StripOfStripped(x);
      if |x| >= 4 {
        assert x[..4][0] == x[0];
      }
    }
    EchoNoMatch(x);
    DottedNoMatch(x);
  }

  /** Where the groups and dots of a dotted address sit. */
  lemma IpAddressText(a: string, b: string, c: string, d: string, x: string) returns (d1: nat, d2: nat, d3: nat)
    requires DigitGroupText(a) && DigitGroupText(b) && DigitGroupText(c) && DigitGroupText(d)
    requires x == a + "." + b + "." + c + "." + d
    ensures DigitsAndDots(x) && x != [] && IsDigit(x[0]) && IsDigit(x[|x| - 1])
    ensures DigitGroup(x, 0) == Some(d1) && At(x, d1, ".")
    ensures DigitGroup(x, d1 + 1) == Some(d2) && At(x, d2, ".")
    ensures DigitGroup(x, d2 + 1) == Some(d3) && At(x, d3, ".")
    ensures DigitGroup(x, d3 + 1) == Some(|x|)
  {
    IpSlices(a, b, c, d, x);
    IpChars(x, a, b, c, d);
    d1, d2, d3 := IpGroupsAt(x, a, b, c, d);
  }

  lemma IpSlices(a: string, b: string, c: string, d: string, x: string)
    requires x == a + "." + b + "." + c + "." + d
    ensures IpLaidOut(x, a, b, c, d)
  {
    var p1 := |a| + 1;
    var p2 := p1 + |b| + 1;
    var p3 := p2 + |c| + 1;
    assert x[0..|a|] == a;
    assert x[p1..p1 + |b|] == b;
    assert x[p2..p2 + |c|] == c;
    assert x[p3..|x|] == d;
  }

  /** `x` is the four groups joined by dots: group `b` starts at
      `|a| + 1`, `c` one past the end of `b`, and `d` one past that of `c`. */
  predicate IpLaidOut(x: string, a: string, b: string, c: string, d: string) {
    var p1 := |a| + 1;
    var p2 := p1 + |b| + 1;
    var p3 := p2 + |c| + 1;
    |x| == p3 + |d|
    && x[0..|a|] == a && x[|a|] == '.'
    && x[p1..p1 + |b|] == b && x[p1 + |b|] == '.'
    && x[p2..p2 + |c|] == c && x[p2 + |c|] == '.'
    && x[p3..|x|] == d
  }

  lemma IpChars(x: string, a: string, b: string, c: string, d: string)
    requires DigitGroupText(a) && DigitGroupText(b) && DigitGroupText(c) && DigitGroupText(d)
    requires IpLaidOut(x, a, b, c, d)
    ensures DigitsAndDots(x) && x != [] && IsDigit(x[0]) && IsDigit(x[|x| - 1])
  {
    var p1 := |a| + 1;
    var p2 := p1 + |b| + 1;
    var p3 := p2 + |c| + 1;
    GroupDigits(x, 0, a);
    GroupDigits(x, p1, b);
    GroupDigits(x, p2, c);
    GroupDigits(x, p3, d);
    forall k | 0 <= k < |x| ensures IsDigit(x[k]) || x[k] == '.' {
      if k < |a| {
      } else if k == |a| {
      } else if k < p1 + |b| {
      } else if k == p1 + |b| {
      } else if k < p2 + |c| {
      } else if k == p2 + |c| {
      }
    }
  }

  /** The characters of a digit group in place are digits. */
  lemma GroupDigits(x: string, p: nat, g: string)
    requires DigitGroupText(g) && p + |g| <= |x| && x[p..p + |g|] == g
    ensures forall k :: p <= k < p + |g| ==> IsDigit(x[k])
  {
    forall k | p <= k < p + |g| ensures IsDigit(x[k]) {
      assert x[k] == x[p..p + |g|][k - p];
    }
  }

  lemma IpGroupsAt(x: string, a: string, b: string, c: string, d: string) returns (d1: nat, d2: nat, d3: nat)
    requires DigitGroupText(a) && DigitGroupText(b) && DigitGroupText(c) && DigitGroupText(d)
    requires IpLaidOut(x, a, b, c, d)
    ensures DigitGroup(x, 0) == Some(d1) && At(x, d1, ".")
    ensures DigitGroup(x, d1 + 1) == Some(d2) && At(x, d2, ".")
    ensures DigitGroup(x, d2 + 1) == Some(d3) && At(x, d3, ".")
    ensures DigitGroup(x, d3 + 1) == Some(|x|)
  {
    d1 := |a|;
    d2 := d1 + 1 + |b|;
    d3 := d2 + 1 + |c|;
    GroupThenDot(x, 0, a);
    GroupThenDot(x, d1 + 1, b);
    GroupThenDot(x, d2 + 1, c);
    DigitGroupAt(x, d3 + 1, d);
  }

  /** A digit group followed by a dot. */
  lemma GroupThenDot(x: string, p: nat, g: string)
    requires DigitGroupText(g) && p + |g| < |x| && x[p..p + |g|] == g && x[p + |g|] == '.'
    ensures DigitGroup(x, p) == Some(p + |g|) && At(x, p + |g|, ".")
  {
    DigitGroupAt(x, p, g);
    DotAt(x, p + |g|);
  }

  lemma DotAt(s: string, p: nat)
    requires p < |s| && s[p] == '.'
    ensures At(s, p, ".")
  {
    assert s[p..p + 1] == [s[p]];
  }

  /** Four digit groups joined by dots, filling the text, are one match of
      the address pattern. */
  lemma IpWhole(x: string, d1: nat, d2: nat, d3: nat)
    requires DigitGroup(x, 0) == Some(d1) && At(x, d1, ".")
    requires DigitGroup(x, d1 + 1) == Some(d2) && At(x, d2, ".")
    requires DigitGroup(x, d2 + 1) == Some(d3) && At(x, d3, ".")
    requires DigitGroup(x, d3 + 1) == Some(|x|)
    ensures Sub(x, Ip, "<IP>") == "<IP>"
  {
    IpWholeMatch(x, d1, d2, d3);
    assert SubFrom(x, |x|, Ip, "<IP>") == "";
  }

  lemma IpWholeMatch(x: string, d1: nat, d2: nat, d3: nat)
    requires DigitGroup(x, 0) == Some(d1) && At(x, d1, ".")
    requires DigitGroup(x, d1 + 1) == Some(d2) && At(x, d2, ".")
    requires DigitGroup(x, d2 + 1) == Some(d3) && At(x, d3, ".")
    requires DigitGroup(x, d3 + 1) == Some(|x|)
    ensures Ip(x, 0) == Some(|x|)
  {
    assert Groups(x, d3 + 1, 1) == Some(|x|);
    GroupsStep(x, d2 + 1, d3, 2);
    GroupsStep(x, d1 + 1, d2, 3);
    GroupsStep(x, 0, d1, 4);
  }

  /** A group and a dot, then `n - 1` more groups. */
  lemma GroupsStep(s: string, p: nat, a: nat, n: nat)
    requires n >= 2 && DigitGroup(s, p) == Some(a) && At(s, a, ".")
    ensures Groups(s, p, n) == Groups(s, a + 1, n - 1)
  {
  }

  /** The placeholders go through the remaining patterns unchanged and are
      their own collapsed form. */
  lemma PlaceholderSteps()
    ensures Sub("<URL>", Ip, "<IP>") == "<URL>"
    ensures Sub("<URL>", EchoAdmin, SECRET_ADMIN) == "<URL>"
    ensures Sub("<IP>", EchoAdmin, SECRET_ADMIN) == "<IP>"
    ensures Join(SplitWs("<URL>"), " ") == "<URL>"
    ensures Join(SplitWs("<IP>"), " ") == "<IP>"
  {
    PlaceholdersNoSpace();
    PlainNoMatch("<URL>");
    EchoNoMatch("<URL>");
    EchoNoMatch("<IP>");
    CollapseWord("<URL>");
    CollapseWord("<IP>");
  }

  /** `echo "<password>"|passwd`, the way intruders set a new account
      password, keeps nothing of the password. */
  lemma EchoPasswordMasked(pw: string)
    requires pw != [] && forall k :: 0 <= k < |pw| ==> pw[k] != '"'
    ensures NormalizeCommand("echo \"" + pw + "\"|passwd") == SECRET_PASSWD
  {
    var x := "echo \"" + pw + "\"|passwd";
    EchoPasswordText(pw, x);
    SecretSteps();
  }

  lemma EchoPasswordText(pw: string, x: string)
    requires pw != [] && forall k :: 0 <= k < |pw| ==> pw[k] != '"'
    requires x == "echo \"" + pw + "\"|passwd"
    ensures Masked(x) == Sub(AddressesMasked(FilesMasked(SECRET_PASSWD)), EchoAdmin, SECRET_ADMIN)
  {
    EchoPasswordTagless(pw, x);
    EchoPasswordNoDashE(pw, x);
    EchoPasswordSub(pw, x);
    assert EchoMasked(Tagless(x)) == SECRET_PASSWD;
  }

  /** The password pattern replaces the whole command. */
  lemma EchoPasswordSub(pw: string, x: string)
    requires pw != [] && forall k :: 0 <= k < |pw| ==> pw[k] != '"'
    requires x == "echo \"" + pw + "\"|passwd"
    ensures Sub(x, EchoPasswd, SECRET_PASSWD) == SECRET_PASSWD
  {
    EchoPasswdWhole(pw, x);
    assert SubFrom(x, |x|, EchoPasswd, SECRET_PASSWD) == "";
  }

  lemma EchoPasswordTagless(pw: string, x: string)
    requires x == "echo \"" + pw + "\"|passwd"
    ensures Tagless(x) == x
  {
    assert x[0] == 'e' && x[|x| - 1] == 'd';
    StripOfStripped(x);
    assert x[..4][0] == x[0];
  }

  /** The `-e` form finds no match in the plain password command. */
  lemma EchoPasswordNoDashE(pw: string, x: string)
    requires forall k :: 0 <= k < |pw| ==> pw[k] != '"'
    requires x == "echo \"" + pw + "\"|passwd"
    ensures Sub(x, EchoDashE, SECRET_PASSWD) == x
  {
    QuotesOf(pw, x);
    forall j | 0 <= j < |x| ensures EchoDashE(x, j).None? {
      EchoDashEQuotes(x, j);
    }
    SubNoMatch(x, EchoDashE, SECRET_PASSWD);
  }

  /** The only quotes in `echo "<password>"|passwd` are the two around the
      password. */
  lemma QuotesOf(pw: string, x: string)
    requires forall k :: 0 <= k < |pw| ==> pw[k] != '"'
    requires x == "echo \"" + pw + "\"|passwd"
    ensures |x| == |pw| + 14 && x[5] == '"' && x[6 + |pw|] == '"'
    ensures forall k :: 0 <= k < |x| && x[k] == '"' ==> k == 5 || k == 6 + |pw|
  {
    forall k | 0 <= k < |x| && k != 5 && k != 6 + |pw| ensures x[k] != '"' {
      if 6 <= k < 6 + |pw| {
        assert x[k] == pw[k - 6];
      }
    }
  }

  /** The `-e` pattern needs two quotes at least eight characters after
      its start. */
  lemma EchoDashEQuotes(s: string, i: nat)
    ensures EchoDashE(s, i).Some? ==>
      exists q0, q1 :: i + 8 <= q0 < q1 < |s| && s[q0] == '"' && s[q1] == '"'
  {
    if EchoDashE(s, i).Some? {
      var w1 := RunFrom(s, i + 4, IsSpace);
      var b := i + 4 + w1 + 2;
      var w2 := RunFrom(s, b, IsSpace);
      AtIndex(s, b + w2, "\"", 0);
      var n := RunFrom(s, b + w2 + 1, NotQuote);
      RunFromMaximal(s, b + w2 + 1, NotQuote);
      assert s[b + w2] == '"' && s[b + w2 + 1 + n] == '"';
    }
  }

  /** `echo "<password>"|passwd` is one match of the password pattern. */
  lemma EchoPasswdWhole(pw: string, x: string)
    requires pw != [] && forall k :: 0 <= k < |pw| ==> pw[k] != '"'
    requires x == "echo \"" + pw + "\"|passwd"
    ensures EchoPasswd(x, 0) == Some(|x|)
  {
    QuotesOf(pw, x);
    assert x[0..4] == "echo";
    assert x[4] == ' ' && x[5] == '"';
    RunFromIs(x, 4, IsSpace, 1);
    assert x[5..6] == "\"";
    assert forall k :: 6 <= k < 6 + |pw| ==> x[k] == pw[k - 6];
    RunFromIs(x, 6, NotQuote, |pw|);
    assert x[7 + |pw|..|x|] == "|passwd";
  }

  /** The admin-password pattern needs a quote. */
  lemma EchoAdminQuote(s: string, i: nat)
    ensures EchoAdmin(s, i).Some? ==> exists k :: i < k < |s| && s[k] == '"'
  {
    if EchoAdmin(s, i).Some? {
      var w := RunFrom(s, i + 4, IsSpace);
      AtIndex(s, i + 4 + w, "\"admin", 0);
    }
  }

  /** The password placeholder goes through the later patterns unchanged. */
  lemma SecretSteps()
    ensures Sub(AddressesMasked(FilesMasked(SECRET_PASSWD)), EchoAdmin, SECRET_ADMIN) == SECRET_PASSWD
    ensures Join(SplitWs(SECRET_PASSWD), " ") == SECRET_PASSWD
  {
    var t := SECRET_PASSWD;
    SecretPlain(t);
    SecretSingleSpaced(t);
    PlainNoMatch(t);
    forall j | 0 <= j < |t| ensures EchoAdmin(t, j).None? {
      EchoAdminQuote(t, j);
    }
    SubNoMatch(t, EchoAdmin, SECRET_ADMIN);
    JoinSplitWsSingleSpaced(t);
  }

  /** The password placeholder has no slash, dot, colon, digit or quote. */
  lemma SecretPlain(t: string)
    requires t == SECRET_PASSWD
    ensures forall k :: 0 <= k < |t| ==> t[k] != '/' && t[k] != '.' && t[k] != ':' && !IsDigit(t[k]) && t[k] != '"'
  {
  }

  /** Its one blank sits between two visible characters. */
  lemma SecretSingleSpaced(t: string)
    requires t == SECRET_PASSWD
    ensures SingleSpaced(t)
  {
    var w1, w2 := "echo", "<SECRET>|passwd";
    assert t == w1 + " " + w2;
    assert NoSpace(w1) && NoSpace(w2);
    JoinWordsSingleSpaced([w1, w2]);
    assert Join([w1, w2], " ") == t;
  }
}
