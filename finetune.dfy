/** The fine-tuning converter (fine_tuning/convert_sessions_to_finetune.py):
    every session of at least two commands becomes one prompt/response
    example per command after the first, whose prompt lists the whole
    history before it. Reading and writing files are left to the caller:
    the input is its list of lines and the output is the list of examples
    written, with the exception that stopped the script, if any. */
module Finetune {
  import opened Outcomes
  import opened PyText
  import opened JsonValue
  import Seqs

  /** One line of the output file: `{"prompt": ..., "response": ...}`. The
      response is the next command as stored, whatever its JSON type. */
  datatype Example = Example(prompt: string, response: Json)

  /** The examples written and the exception that ended the run early. */
  datatype Output = Output(written: seq<Example>, error: Option<string>)

  const HEAD: string := "Commands:\n"
  const TAIL: string := "\nNext command:"

  /** `"Commands:\n" + "\n".join(context) + "\nNext command:"`. */
  function PromptOf(context: seq<string>): (p: string)
    ensures |p| == |HEAD| + |Join(context, "\n")| + |TAIL|
    ensures p[..|HEAD|] == HEAD && p[|p| - |TAIL|..] == TAIL
  {
    HEAD + Join(context, "\n") + TAIL
  }

  /** The history a prompt lists, between its first line and its last. */
  function ContextText(p: string): string
    requires |p| >= |HEAD| + |TAIL|
  {
    p[|HEAD|..|p| - |TAIL|]
  }

  lemma ContextTextOf(context: seq<string>)
    ensures ContextText(PromptOf(context)) == Join(context, "\n")
  {
    var p := PromptOf(context);
    assert p == HEAD + Join(context, "\n") + TAIL;
    assert p[|HEAD|..|p| - |TAIL|] == Join(context, "\n");
  }

  /** The text of each leading string command (`""` for any other value,
      which the windows never reach). */
  function Texts(items: seq<Json>): (r: seq<string>)
    ensures |r| == |items|
    ensures forall k :: 0 <= k < |items| && items[k].JStr? ==> r[k] == items[k].s
  {
    seq(|items|, k requires 0 <= k < |items| => if items[k].JStr? then items[k].s else "")
  }

  /** How many commands at the front are strings. */
  function StringRun(items: seq<Json>): (k: nat)
    ensures k <= |items|
    ensures forall j :: 0 <= j < k ==> items[j].JStr?
    ensures k < |items| ==> !items[k].JStr?
  {
    if items == [] || !items[0].JStr? then 0 else 1 + StringRun(items[1..])
  }

  /** `cmds = obj.get("commands")`, then `if not cmds or len(cmds) < 2:
      continue`: `None` for a session that is skipped, the commands to walk
      for one that is not, or the exception `len` or the slice raises. A
      string walks its characters. */
  function CommandsOf(cmds: Json): (r: Result<Option<seq<Json>>>)
    ensures r.Ok? && r.value.Some? ==> |r.value.value| >= 2
    ensures cmds.JArr? ==> r == Ok(if |cmds.items| < 2 then None else Some(cmds.items))
    ensures !Truthy(cmds) ==> r == Ok(None)
  {
    match cmds
    case JNull => Ok(None)
    case JBool(b) => if b then Err("TypeError: object of type 'bool' has no len()") else Ok(None)
    case JNum(v) => if v != 0 then Err("TypeError: object of type 'int' has no len()") else Ok(None)
    case JStr(s) =>
      if |s| < 2 then Ok(None) else Ok(Some(seq(|s|, k requires 0 <= k < |s| => JStr([s[k]]))))
    case JArr(items) => if |items| < 2 then Ok(None) else Ok(Some(items))
    case JObj(f) => if |f| < 2 then Ok(None) else Err("TypeError: unhashable type: 'slice'")
  }

  /** The examples of one session of `m` commands: one per window `i` in
      `0 .. m-2`, the prompt listing commands `0..i` and the response
      command `i+1`, up to the first window whose history holds a value
      that is not a string, where `"\n".join` raises. */
  function Windows(items: seq<Json>): (o: Output)
    requires |items| >= 2
    ensures o.error.None? <==> StringRun(items) >= |items| - 1
    ensures |o.written| == if o.error.None? then |items| - 1 else StringRun(items)
    ensures forall i :: 0 <= i < |o.written| ==>
      o.written[i] == Example(PromptOf(Texts(items[..i + 1])), items[i + 1])
  {
    var k := StringRun(items);
    var good := if k < |items| - 1 then k else |items| - 1;
    Output(seq(good, i requires 0 <= i < good => Example(PromptOf(Texts(items[..i + 1])), items[i + 1])),
           if k < |items| - 1 then Some("TypeError: sequence item: expected str instance") else None)
  }

  /** A session of `n` string commands gives `n - 1` examples and no error;
      the first lists the first command, the last answers with the last
      command, and each next example's history is the previous history
      followed by the previous response: the context is the whole prefix,
      not a bounded window. */
  lemma WindowsOfStrings(cmds: seq<string>)
    requires |cmds| >= 2
    ensures var items := seq(|cmds|, k requires 0 <= k < |cmds| => JStr(cmds[k]));
      var o := Windows(items);
      && o.error.None? && |o.written| == |cmds| - 1
      && ContextText(o.written[0].prompt) == cmds[0]
      && o.written[|cmds| - 2].response == JStr(cmds[|cmds| - 1])
      && (forall i :: 0 <= i < |cmds| - 1 ==> o.written[i].response == JStr(cmds[i + 1]))
      && (forall i :: 0 <= i < |cmds| - 2 ==>
            ContextText(o.written[i + 1].prompt)
            == ContextText(o.written[i].prompt) + "\n" + o.written[i].response.s)
  {
    var items := seq(|cmds|, k requires 0 <= k < |cmds| => JStr(cmds[k]));
    StringRunAll(items);
    var o := Windows(items);
    var t := Texts(items);
    assert t == cmds;
    ContextTextOf(t[..1]);
    assert items[..1][0] == items[0];
    assert Texts(items[..1]) == t[..1] == [cmds[0]];
    forall i | 0 <= i < |cmds| - 2
      ensures ContextText(o.written[i + 1].prompt) == ContextText(o.written[i].prompt) + "\n" + o.written[i].response.s
    {
      HistoryGrows(items, i);
    }
  }

  lemma {:induction false} StringRunAll(items: seq<Json>)
    requires forall k :: 0 <= k < |items| ==> items[k].JStr?
    ensures StringRun(items) == |items|
  {
    if items != [] {
      StringRunAll(items[1..]);
    }
  }

  /** Window `i + 1` lists window `i`'s history and its response. */
  lemma HistoryGrows(items: seq<Json>, i: nat)
    requires |items| >= 2 && i + 2 < |items| && StringRun(items) >= |items| - 1
    ensures var o := Windows(items);
      ContextText(o.written[i + 1].prompt) == ContextText(o.written[i].prompt) + "\n" + o.written[i].response.s
  {
    var o := Windows(items);
    assert o.written[i].prompt == PromptOf(Texts(items[..i + 1]));
    assert o.written[i + 1].prompt == PromptOf(Texts(items[..i + 2]));
    ContextTextOf(Texts(items[..i + 1]));
    ContextTextOf(Texts(items[..i + 2]));
    JoinGrows(items, i);
  }

  lemma JoinGrows(items: seq<Json>, i: nat)
    requires i + 1 < |items| && items[i + 1].JStr?
    ensures Join(Texts(items[..i + 2]), "\n") == Join(Texts(items[..i + 1]), "\n") + "\n" + items[i + 1].s
  {
    var a := Texts(items[..i + 1]);
    var b := a + [items[i + 1].s];
    TextsSnoc(items, i);
    JoinSnoc(b, "\n");
    assert b[..|b| - 1] == a;
  }

  /** One more command in the history adds its text at the end. */
  lemma TextsSnoc(items: seq<Json>, i: nat)
    requires i + 1 < |items| && items[i + 1].JStr?
    ensures Texts(items[..i + 2]) == Texts(items[..i + 1]) + [items[i + 1].s]
  {
    var a, b := Texts(items[..i + 1]), Texts(items[..i + 2]);
    assert forall k :: 0 <= k <= i ==> b[k] == a[k];
  }

  /** What one line of the input adds: nothing for a blank line, a line
      that is not JSON or a skipped session; the session's examples; or
      the exception the line raises (`obj.get` on a value that is not an
      object). */
  function LineOutput(line: string, decode: string -> Option<Json>): (o: Output)
    ensures Strip(line) == "" || decode(Strip(line)).None? ==> o == Output([], None)
    ensures (decode(Strip(line)).Some? && decode(Strip(line)).value.JObj?
      && !Truthy(Get(decode(Strip(line)).value.fields, "commands"))) ==> o == Output([], None)
  {
    var t := Strip(line);
    if t == "" then Output([], None)
    else match decode(t)
      case None => Output([], None)
      case Some(obj) =>
        if !obj.JObj? then Output([], Some("AttributeError: object has no attribute 'get'"))
        else match CommandsOf(Get(obj.fields, "commands"))
          case Err(e) => Output([], Some(e))
          case Ok(None) => Output([], None)
          case Ok(Some(items)) => Windows(items)
  }

  /** `convert_sessions`: the examples of the lines in order, up to and
      including the line that raises. */
  function Convert(lines: seq<string>, decode: string -> Option<Json>): (o: Output)
  {
    if lines == [] then Output([], None)
    else
      var head := LineOutput(lines[0], decode);
      if head.error.Some? then head
      else
        var rest := Convert(lines[1..], decode);
        Output(head.written + rest.written, rest.error)
  }

  /** Without an exception, the number of examples is the sum over the
      lines; every example comes from one of them. */
  function Total(lines: seq<string>, decode: string -> Option<Json>): nat {
    if lines == [] then 0 else |LineOutput(lines[0], decode).written| + Total(lines[1..], decode)
  }

  lemma {:induction false} ConvertTotal(lines: seq<string>, decode: string -> Option<Json>)
    requires Convert(lines, decode).error.None?
    ensures |Convert(lines, decode).written| == Total(lines, decode)
    ensures forall k :: 0 <= k < |lines| ==> LineOutput(lines[k], decode).error.None?
  {
    if lines != [] {
      ConvertTotal(lines[1..], decode);
      forall k | 0 <= k < |lines| ensures LineOutput(lines[k], decode).error.None? {
        if k > 0 { assert lines[k] == lines[1..][k - 1]; }
      }
    }
  }

  /** The inner loop: the windows of one session appended to the output. */
  method WriteWindows(items: seq<Json>, out: seq<Example>) returns (out': seq<Example>, error: Option<string>)
    requires |items| >= 2
    ensures out' == out + Windows(items).written && error == Windows(items).error
  {
    ghost var o := Windows(items);
    out' := out;
    error := None;
    for i := 0 to |items| - 1
      invariant forall j :: 0 <= j < i ==> items[j].JStr?
      invariant out' == out + o.written[..i]
    {
      if !items[i].JStr? {
        assert StringRun(items) == i;
        assert o.written[..i] == o.written;
        return out', Some("TypeError: sequence item: expected str instance");
      }
      var context := Texts(items[..i + 1]);
      out' := out' + [Example(PromptOf(context), items[i + 1])];
      assert o.written[..i + 1] == o.written[..i] + [o.written[i]];
    }
    assert o.written[..|items| - 1] == o.written;
  }

  /** After the first `i` lines, `out` holds what they wrote, and the rest
      of the run is that of the remaining lines. */
  predicate Resumes(lines: seq<string>, decode: string -> Option<Json>, i: nat, out: seq<Example>)
    requires i <= |lines|
  {
    Convert(lines, decode) == Output(out + Convert(lines[i..], decode).written, Convert(lines[i..], decode).error)
  }

  /** One line further: its examples join the output, or its exception
      ends the run. */
  lemma ResumesNext(lines: seq<string>, decode: string -> Option<Json>, i: nat, out: seq<Example>)
    requires i < |lines| && Resumes(lines, decode, i, out)
    ensures var head := LineOutput(lines[i], decode);
      && (head.error.Some? ==> Convert(lines, decode) == Output(out + head.written, head.error))
      && (head.error.None? ==> Resumes(lines, decode, i + 1, out + head.written))
  {
    var head := LineOutput(lines[i], decode);
    var rest := Convert(lines[i + 1..], decode);
    ConvertFrom(lines, decode, i);
    if head.error.None? {
      Seqs.AppendAssoc(out, head.written, rest.written);
    }
  }

  /** The run from line `i` is line `i`'s output followed by the run from line `i + 1`. */
  lemma ConvertFrom(lines: seq<string>, decode: string -> Option<Json>, i: nat)
    requires i < |lines|
    ensures var head := LineOutput(lines[i], decode);
      var rest := Convert(lines[i + 1..], decode);
      Convert(lines[i..], decode) == if head.error.Some? then head else Output(head.written + rest.written, rest.error)
  {
    assert lines[i..][0] == lines[i] && lines[i..][1..] == lines[i + 1..];
  }

  /** The body of the outer loop for one line of the input. */
  method ConvertLine(line: string, decode: string -> Option<Json>, out: seq<Example>)
    returns (out': seq<Example>, error: Option<string>)
    ensures out' == out + LineOutput(line, decode).written && error == LineOutput(line, decode).error
  {
    out', error := out, None;
    var t := Strip(line);
    if t == "" {
      return;
    }
    var obj := decode(t);
    if obj.None? {
      return;
    }
    if !obj.value.JObj? {
      return out', Some("AttributeError: object has no attribute 'get'");
    }
    var cmds := CommandsOf(Get(obj.value.fields, "commands"));
    if cmds.Err? {
      return out', Some(cmds.error);
    }
    if cmds.value.Some? {
      out', error := WriteWindows(cmds.value.value, out);
    }
  }

  /** `convert_sessions(input_path, output_path)` over the lines of the
      input: the examples written, in order, and the exception that ended
      the run, if any. */
  method ConvertSessions(lines: seq<string>, decode: string -> Option<Json>) returns (out: seq<Example>, error: Option<string>)
    ensures Output(out, error) == Convert(lines, decode)
  {
    out := [];
    error := None;
    assert lines[0..] == lines;
    for i := 0 to |lines|
      invariant Resumes(lines, decode, i, out) && error.None?
    {
      ResumesNext(lines, decode, i, out);
      out, error := ConvertLine(lines[i], decode, out);
      if error.Some? {
        return;
      }
    }
    assert lines[|lines|..] == [];
  }
}
