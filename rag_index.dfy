/** What the two retrieval-augmented evaluations (prompting/core_rag.py and
    prompting/core_RAG.py) share: the vector store's documents, one per
    sliding window of a recorded session, the batched indexing of a sessions
    file, the text a retrieval returns, the parsing of the model's answer and
    the choice of the lines the tasks are cut from. The embedding model and
    the similarity search are not modelled: the store is the list of its
    documents and a query's answer is given. */
module RagIndex {
  import opened Outcomes
  import opened PyText
  import opened Seqs
  import opened JsonValue
  import opened Windows
  import opened PromptUtils

  /** An indexed window: its id, the document text, and the `next_command`,
      `session_id` and `original_line` metadata. */
  datatype Doc = Doc(id: string, text: string, next: string, session: Json, line: nat)

  /** `f"sess_{line_idx}_step_{i}"`. */
  function DocId(line: nat, i: nat): (r: string)
    ensures "sess_" <= r
  {
    "sess_" + NatToString(line) + "_step_" + NatToString(i)
  }

  /** The document for the window that ends at command `i` of a session,
      whose target is command `i + 1`. */
  function MakeDoc(line: nat, sid: Json, cmds: seq<string>, i: nat, L: int): Doc
    requires i + 1 < |cmds|
  {
    Doc(DocId(line, i), Join(Window(cmds, i, L), " || "), cmds[i + 1], sid, line)
  }

  /** `len(range(len(cmds) - 1))`: a session of `m >= 1` commands has `m - 1`
      windows, an empty one none. */
  function WindowCount(cmds: seq<string>): (n: nat)
    ensures n == 0 || n < |cmds|
  {
    if cmds == [] then 0 else |cmds| - 1
  }

  /** The documents of a session's first `n` windows. */
  function SessionDocs(line: nat, sid: Json, cmds: seq<string>, n: nat, L: int): (r: seq<Doc>)
    requires n == 0 || n < |cmds|
    ensures |r| == n
    ensures forall i :: 0 <= i < n ==> r[i] == MakeDoc(line, sid, cmds, i, L)
  {
    if n == 0 then [] else SessionDocs(line, sid, cmds, n - 1, L) + [MakeDoc(line, sid, cmds, n - 1, L)]
  }

  /** Each session gives one document per command but the last: document
      `i` is its window joined by `" || "`, targets command `i + 1` and is
      named after the line and the step. */
  lemma SessionDocsShape(line: nat, sid: Json, cmds: seq<string>, L: int, i: nat)
    requires cmds != [] && i + 1 < |cmds|
    ensures var docs := SessionDocs(line, sid, cmds, WindowCount(cmds), L);
      |docs| == |cmds| - 1
      && docs[i].text == Join(Window(cmds, i, L), " || ")
      && docs[i].next == cmds[i + 1]
      && docs[i].id == "sess_" + NatToString(line) + "_step_" + NatToString(i)
      && docs[i].line == line
  {
  }

  /** The session id (`unnamed` when absent) and the `commands` value (an
      empty list when absent) of a line that decodes to an object; `None`
      where `json.loads` or `.get` raises. */
  function RawSession(line: string, decode: string -> Option<Json>, unnamed: Json): (r: Option<(Json, Json)>)
    ensures r.Some? <==> decode(line).Some? && decode(line).value.JObj?
    ensures r.Some? ==> var f := decode(line).value.fields;
      r.value.0 == (if "session" in f then f["session"] else unnamed)
      && r.value.1 == (if "commands" in f then f["commands"] else JArr([]))
  {
    match decode(line)
    case None => None
    case Some(obj) =>
      if !obj.JObj? then None
      else
        var f := obj.fields;
        Some((if "session" in f then f["session"] else unnamed,
              if "commands" in f then f["commands"] else JArr([])))
  }

  /** What reading a non-blank line gives to the window loops: `None` where
      the line raises before its first window (it does not decode, is not
      an object, or its commands have no `len` or are a dictionary the
      first slice fails on) or where its commands are a list holding a
      non-string; else the session id and the commands, a string being read
      as its characters. */
  function ReadSession(line: string, decode: string -> Option<Json>, unnamed: Json): (r: Option<(Json, seq<string>)>)
    ensures r.Some? <==>
      RawSession(line, decode, unnamed).Some?
      && CommandList(RawSession(line, decode, unnamed).value.1).Ok?
      && CommandList(RawSession(line, decode, unnamed).value.1).value.Some?
    ensures r.Some? ==>
      r.value.0 == RawSession(line, decode, unnamed).value.0
      && CommandList(RawSession(line, decode, unnamed).value.1) == Ok(Some(r.value.1))
  {
    match RawSession(line, decode, unnamed)
    case None => None
    case Some((sid, raw)) =>
      match CommandList(raw)
      case Ok(Some(cmds)) => Some((sid, cmds))
      case _ => None
  }

  /** The indexer reads a line with `"unknown"` for a missing session id. */
  function LineSession(line: string, decode: string -> Option<Json>): (r: Option<(Json, seq<string>)>)
  {
    ReadSession(line, decode, JStr("unknown"))
  }

  /** A line the indexer cannot read. Blank lines (`not line.strip()`, that
      is, only white space) are skipped before they are read. */
  predicate Bad(line: string, decode: string -> Option<Json>) {
    !AllSpace(line) && LineSession(line, decode).None?
  }

  /** The documents line `idx` gives when it is read. */
  function LineDocs(idx: nat, line: string, decode: string -> Option<Json>, L: int): (r: seq<Doc>) {
    if AllSpace(line) then []
    else match LineSession(line, decode)
      case None => []
      case Some((sid, cmds)) => SessionDocs(idx, sid, cmds, WindowCount(cmds), L)
  }

  /** A session whose commands are a string is indexed one character per
      command. */
  lemma StringCommandsIndexed(idx: nat, line: string, decode: string -> Option<Json>, L: int, s: string)
    requires !AllSpace(line) && RawSession(line, decode, JStr("unknown")).Some?
    requires RawSession(line, decode, JStr("unknown")).value.1 == JStr(s)
    ensures LineDocs(idx, line, decode, L)
      == SessionDocs(idx, RawSession(line, decode, JStr("unknown")).value.0, Chars(s), WindowCount(Chars(s)), L)
  {
  }

  /** Commands that are a number, `true`/`false`, `null` or a dictionary
      of two or more keys make the line unreadable: `len` or the first
      slice raises. */
  lemma UnsliceableCommandsBad(line: string, decode: string -> Option<Json>)
    requires !AllSpace(line) && RawSession(line, decode, JStr("unknown")).Some?
    requires var c := RawSession(line, decode, JStr("unknown")).value.1;
      c.JNum? || c.JBool? || c.JNull? || (c.JObj? && |c.fields| >= 2)
    ensures Bad(line, decode)
  {
  }

  /** The documents of the readable lines, in file order; `original_line` is
      the line's position in the file, blank lines included. */
  function FileDocs(lines: seq<string>, decode: string -> Option<Json>, L: int): (r: seq<Doc>)
    ensures forall j :: 0 <= j < |r| ==> r[j].line < |lines|
  {
    if lines == [] then []
    else
      var n := |lines| - 1;
      var init := FileDocs(lines[..n], decode, L);
      var last := LineDocs(n, lines[n], decode, L);
      LineDocsLine(n, lines[n], decode, L);
      init + last
  }

  lemma LineDocsLine(idx: nat, line: string, decode: string -> Option<Json>, L: int)
    ensures forall j :: 0 <= j < |LineDocs(idx, line, decode, L)| ==> LineDocs(idx, line, decode, L)[j].line == idx
  {
  }

  lemma FileDocsSnoc(lines: seq<string>, n: nat, decode: string -> Option<Json>, L: int)
    requires n < |lines|
    ensures FileDocs(lines[..n + 1], decode, L) == FileDocs(lines[..n], decode, L) + LineDocs(n, lines[n], decode, L)
  {
    assert lines[..n + 1][..n] == lines[..n];
  }

  /** The position of the first line the indexer cannot read, or the number
      of lines when there is none. */
  function FirstBad(lines: seq<string>, decode: string -> Option<Json>): (b: nat)
    ensures b <= |lines|
    ensures forall j :: 0 <= j < b ==> !Bad(lines[j], decode)
    ensures b < |lines| ==> Bad(lines[b], decode)
  {
    if lines == [] then 0
    else
      var n := |lines| - 1;
      var b := FirstBad(lines[..n], decode);
      if b < n then b else if Bad(lines[n], decode) then n else |lines|
  }

  lemma FirstBadStep(lines: seq<string>, idx: nat, decode: string -> Option<Json>)
    requires idx < |lines| && idx <= FirstBad(lines, decode) && !Bad(lines[idx], decode)
    ensures idx + 1 <= FirstBad(lines, decode)
  {
  }

  // ---------------------------------------------------------------------
  // Batching
  // ---------------------------------------------------------------------

  /** The batches a buffer flushed on reaching `limit` entries, and once
      more at the end, hands to the store. */
  function Chunks<T>(d: seq<T>, limit: nat): (r: seq<seq<T>>)
    requires limit >= 1
    decreases |d|
  {
    if d == [] then []
    else if |d| <= limit then [d]
    else [d[..limit]] + Chunks(d[limit..], limit)
  }

  /** `sum(batches, [])`. */
  function Flatten<T>(batches: seq<seq<T>>): (r: seq<T>) {
    if batches == [] then [] else batches[0] + Flatten(batches[1..])
  }

  /** Every document is added exactly once and in order; no batch is empty
      or holds more than `limit` documents, and all but the last are full. */
  lemma {:induction false} ChunksCover<T>(d: seq<T>, limit: nat)
    requires limit >= 1
    ensures Flatten(Chunks(d, limit)) == d
    ensures forall j :: 0 <= j < |Chunks(d, limit)| ==> 1 <= |Chunks(d, limit)[j]| <= limit
    ensures forall j :: 0 <= j < |Chunks(d, limit)| - 1 ==> |Chunks(d, limit)[j]| == limit
    decreases |d|
  {
    if |d| > limit {
      ChunksCover(d[limit..], limit);
      var rest := Chunks(d[limit..], limit);
      assert Chunks(d, limit) == [d[..limit]] + rest;
      assert ([d[..limit]] + rest)[1..] == rest;
      assert d == d[..limit] + d[limit..];
    } else if d != [] {
      assert Flatten([d]) == d + Flatten([d][1..]);
    }
  }

  /** Flushing a batch after full ones appends exactly that batch, and a
      full batch keeps them all full. */
  lemma {:induction false} ChunksSnoc<T>(a: seq<T>, b: seq<T>, limit: nat)
    requires limit >= 1 && Full(Chunks(a, limit), limit) && 1 <= |b| <= limit
    ensures Chunks(a + b, limit) == Chunks(a, limit) + [b]
    ensures |b| == limit ==> Full(Chunks(a + b, limit), limit)
    decreases |a|
  {
    if a == [] {
      assert a + b == b;
    } else {
      var ch := Chunks(a, limit);
      assert |ch[0]| == limit;
      assert (a + b)[..limit] == a[..limit];
      assert (a + b)[limit..] == a[limit..] + b;
      if |a| == limit {
        assert a[limit..] + b == b;
      } else {
        assert Chunks(a[limit..], limit) == ch[1..];
        ChunksSnoc(a[limit..], b, limit);
      }
    }
  }

  lemma PrefixOfAppend<T>(a: seq<T>, b: seq<T>)
    ensures a <= a + b && |a + b| - |a| == |b|
  {
    assert (a + b)[..|a|] == a;
  }

  /** Every batch holds exactly `limit` documents. */
  predicate Full<T>(batches: seq<seq<T>>, limit: nat) {
    forall j :: 0 <= j < |batches| ==> |batches[j]| == limit
  }

  /** What indexing `lines` leaves in the store: every readable line's
      documents, or, when an unreadable line ends the run, the documents of
      the lines before it that had been flushed, a whole number of batches
      short of fewer than `limit`. */
  predicate Indexed(lines: seq<string>, decode: string -> Option<Json>, L: int, limit: nat,
                    skipBad: bool, crashed: bool, collection: seq<Doc>)
    requires limit >= 1
  {
    var b := FirstBad(lines, decode);
    crashed == (!skipBad && b < |lines|)
    && (!crashed ==> collection == FileDocs(lines, decode, L))
    && (crashed ==> var built := FileDocs(lines[..b], decode, L);
         collection <= built && |built| - |collection| < limit && Full(Chunks(collection, limit), limit))
  }

  /** An unreadable line with nothing unreadable before it ends the run
      with the flushed part of what the earlier lines gave. */
  lemma CrashIndexed(lines: seq<string>, decode: string -> Option<Json>, L: int, limit: nat,
                     idx: nat, collection: seq<Doc>, buf: seq<Doc>)
    requires limit >= 1 && idx < |lines| && idx <= FirstBad(lines, decode)
    requires Bad(lines[idx], decode)
    requires collection + buf == FileDocs(lines[..idx], decode, L)
    requires |buf| < limit && Full(Chunks(collection, limit), limit)
    ensures Indexed(lines, decode, L, limit, false, true, collection)
  {
    assert FirstBad(lines, decode) == idx;
    PrefixOfAppend(collection, buf);
  }

  /** A run that reads every line holds what all the lines give. */
  lemma DoneIndexed(lines: seq<string>, decode: string -> Option<Json>, L: int, limit: nat,
                    skipBad: bool, collection: seq<Doc>)
    requires limit >= 1 && collection == FileDocs(lines, decode, L)
    requires !skipBad ==> FirstBad(lines, decode) == |lines|
    ensures Indexed(lines, decode, L, limit, skipBad, false, collection)
  {
  }

  /** Before the first line nothing is built and no batch is flushed. */
  lemma IndexStart(lines: seq<string>, decode: string -> Option<Json>, L: int, limit: nat)
    requires limit >= 1
    ensures FileDocs(lines[..0], decode, L) == [] && Chunks<Doc>([], limit) == [] && Full(Chunks<Doc>([], limit), limit)
  {
    assert lines[..0] == [];
  }

  /** The vector store: its documents and the batches handed to `add`. */
  class Retriever {
    var collection: seq<Doc>
    var adds: seq<seq<Doc>>

    /** Opening the store finds what an earlier run persisted. */
    constructor (persisted: seq<Doc>)
      ensures collection == persisted && adds == []
    {
      collection := persisted;
      adds := [];
    }

    method PushSession(buf0: seq<Doc>, idx: nat, sid: Json, cmds: seq<string>, L: int, limit: nat,
                       ghost before: seq<Doc>, ghost adds0: seq<seq<Doc>>) returns (buf: seq<Doc>)
      requires limit >= 1
      requires collection + buf0 == before && |buf0| < limit && Full(Chunks(collection, limit), limit)
      requires adds == adds0 + Chunks(collection, limit)
      modifies this
      ensures collection + buf == before + SessionDocs(idx, sid, cmds, WindowCount(cmds), L)
      ensures |buf| < limit && Full(Chunks(collection, limit), limit)
      ensures adds == adds0 + Chunks(collection, limit)
    {
      ghost var docs := SessionDocs(idx, sid, cmds, WindowCount(cmds), L);
      buf := buf0;
      var i := 0;
      while i < WindowCount(cmds)
        invariant 0 <= i <= WindowCount(cmds)
        invariant collection + buf == before + docs[..i]
        invariant |buf| < limit && Full(Chunks(collection, limit), limit)
        invariant adds == adds0 + Chunks(collection, limit)
      {
        var doc := MakeDoc(idx, sid, cmds, i, L);
        assert doc == docs[i];
        PushOne(collection, buf, before, docs, i);
        buf := buf + [doc];
        if |buf| >= limit {
          ChunksSnoc(collection, buf, limit);
          adds := adds + [buf];
          collection := collection + buf;
          buf := [];
        }
        i := i + 1;
      }
      assert docs[..i] == docs;
    }

    /** One line of the file: skipped when blank, reported when it cannot
        be read, else its windows are pushed. */
    method IndexLine(idx: nat, line: string, decode: string -> Option<Json>, L: int, limit: nat,
                     buf0: seq<Doc>, ghost adds0: seq<seq<Doc>>) returns (buf: seq<Doc>, bad: bool)
      requires limit >= 1
      requires |buf0| < limit && Full(Chunks(collection, limit), limit)
      requires adds == adds0 + Chunks(collection, limit)
      modifies this
      ensures bad == Bad(line, decode)
      ensures collection + buf == old(collection) + buf0 + LineDocs(idx, line, decode, L)
      ensures |buf| < limit && Full(Chunks(collection, limit), limit)
      ensures adds == adds0 + Chunks(collection, limit)
    {
      buf, bad := buf0, false;
      StripEmptyIffAllSpace(line);
      if Strip(line) == "" {
        assert LineDocs(idx, line, decode, L) == [];
        return;
      }
      var parsed := LineSession(line, decode);
      if parsed.None? {
        bad := true;
        assert LineDocs(idx, line, decode, L) == [];
        return;
      }
      buf := PushSession(buf, idx, parsed.value.0, parsed.value.1, L, limit, collection + buf0, adds0);
    }

    /** `index_file`. `files` holds each existing file's lines. Nothing
        happens when the file is missing or the store is not empty. With
        `skipBad` a line that cannot be read is skipped; without it the
        exception ends the run, and the documents still in the buffer are
        lost. */
    method IndexFile(path: string, files: map<string, seq<string>>, decode: string -> Option<Json>,
                     L: int, limit: nat, skipBad: bool) returns (crashed: bool)
      requires limit >= 1
      modifies this
      ensures path !in files || old(collection) != [] ==>
        !crashed && collection == old(collection) && adds == old(adds)
      ensures path in files && old(collection) == [] ==>
        Indexed(files[path], decode, L, limit, skipBad, crashed, collection)
        && adds == old(adds) + Chunks(collection, limit)
    {
      crashed := false;
      if path !in files || collection != [] {
        return;
      }
      crashed := IndexLines(files[path], decode, L, limit, skipBad);
    }

    /** One turn of the loop over the lines: the line is indexed, and the
        run ends there when it cannot be read and such lines are not skipped. */
    method IndexStep(lines: seq<string>, idx: nat, decode: string -> Option<Json>, L: int, limit: nat,
                     skipBad: bool, buf0: seq<Doc>, ghost adds0: seq<seq<Doc>>) returns (buf: seq<Doc>, stop: bool)
      requires limit >= 1 && idx < |lines|
      requires !skipBad ==> idx <= FirstBad(lines, decode)
      requires collection + buf0 == FileDocs(lines[..idx], decode, L)
      requires |buf0| < limit && Full(Chunks(collection, limit), limit)
      requires adds == adds0 + Chunks(collection, limit)
      modifies this
      ensures stop ==> !skipBad && Indexed(lines, decode, L, limit, skipBad, true, collection)
      ensures !stop ==> ((!skipBad ==> idx + 1 <= FirstBad(lines, decode))
        && collection + buf == FileDocs(lines[..idx + 1], decode, L))
      ensures |buf| < limit && Full(Chunks(collection, limit), limit)
      ensures adds == adds0 + Chunks(collection, limit)
    {
      FileDocsSnoc(lines, idx, decode, L);
      var bad;
      buf, bad := IndexLine(idx, lines[idx], decode, L, limit, buf0, adds0);
      stop := bad && !skipBad;
      if stop {
        assert LineDocs(idx, lines[idx], decode, L) == [];
        assert FileDocs(lines[..idx], decode, L) + [] == FileDocs(lines[..idx], decode, L);
        CrashIndexed(lines, decode, L, limit, idx, collection, buf);
        return;
      }
      if !skipBad {
        FirstBadStep(lines, idx, decode);
      }
    }

    /** The loop over the lines of an existing file, into an empty store:
        it ends at the first unreadable line unless those are skipped, and
        otherwise leaves the last partial batch in `buf`. */
    method IndexLoop(lines: seq<string>, decode: string -> Option<Json>,
                     L: int, limit: nat, skipBad: bool) returns (buf: seq<Doc>, crashed: bool)
      requires limit >= 1 && collection == []
      modifies this
      ensures crashed ==> !skipBad && Indexed(lines, decode, L, limit, skipBad, true, collection)
      ensures !crashed ==> (collection + buf == FileDocs(lines, decode, L) && |buf| < limit
        && (!skipBad ==> FirstBad(lines, decode) == |lines|))
      ensures Full(Chunks(collection, limit), limit)
      ensures adds == old(adds) + Chunks(collection, limit)
    {
      crashed := false;
      ghost var adds0 := adds;
      buf := [];
      var idx := 0;
      IndexStart(lines, decode, L, limit);
      while idx < |lines| && !crashed
        invariant 0 <= idx <= |lines|
        invariant crashed ==> !skipBad && Indexed(lines, decode, L, limit, skipBad, true, collection)
        invariant !crashed ==> ((!skipBad ==> idx <= FirstBad(lines, decode))
          && collection + buf == FileDocs(lines[..idx], decode, L))
        invariant |buf| < limit && Full(Chunks(collection, limit), limit)
        invariant adds == adds0 + Chunks(collection, limit)
      {
        buf, crashed := IndexStep(lines, idx, decode, L, limit, skipBad, buf, adds0);
        idx := idx + 1;
      }
      if !crashed {
        TakeAll(lines);
      }
    }

    /** Indexing an existing file into an empty store, with the final flush. */
    method IndexLines(lines: seq<string>, decode: string -> Option<Json>,
                      L: int, limit: nat, skipBad: bool) returns (crashed: bool)
      requires limit >= 1 && collection == []
      modifies this
      ensures Indexed(lines, decode, L, limit, skipBad, crashed, collection)
      ensures adds == old(adds) + Chunks(collection, limit)
    {
      var buf;
      buf, crashed := IndexLoop(lines, decode, L, limit, skipBad);
      if crashed {
        return;
      }
      if buf != [] {
        ChunksSnoc(collection, buf, limit);
        adds := adds + [buf];
        collection := collection + buf;
      } else {
        assert collection + buf == collection;
      }
      DoneIndexed(lines, decode, L, limit, skipBad, collection);
    }
  }

  // ---------------------------------------------------------------------
  // Retrieval text, answer parsing and the prediction task lines
  // ---------------------------------------------------------------------

  /** The block `retrieve` writes for the `n`-th similar document. */
  function Example(n: nat, d: Doc): string {
    "--- SIMILAR PAST ATTACK (Example " + NatToString(n) + ") ---\n"
    + "Context:\n" + Replace(d.text, " || ", "\n") + "\n"
    + "Attacker Next Move:\n" + d.next + "\n\n"
  }

  /** `retrieve(context, k)` given the documents the query answered with:
      empty for an empty context, else one block per document. */
  function Retrieve(context: seq<string>, found: seq<Doc>): (r: string)
    ensures context == [] || found == [] ==> r == ""
  {
    if context == [] || found == [] then ""
    else Retrieve(context, found[..|found| - 1]) + Example(|found|, found[|found| - 1])
  }

  /** `[clean_ollama_candidate(l) for l in lines if l.strip()]`. */
  function CleanLines(lines: seq<string>): (r: seq<string>)
    ensures |r| <= |lines|
  {
    if lines == [] then []
    else (if !AllSpace(lines[0]) then [CleanOllamaCandidate(lines[0])] else []) + CleanLines(lines[1..])
  }

  /** One candidate per non-blank line. */
  lemma {:induction false} CleanLinesCount(lines: seq<string>)
    ensures |CleanLines(lines)| == |StrippedNonEmpty(lines)|
  {
    if lines != [] {
      StripEmptyIffAllSpace(lines[0]);
      CleanLinesCount(lines[1..]);
    }
  }

  /** The candidates parsed from an answer (an absent answer is `""`): at
      most `k` cleaned non-blank lines, one per non-blank line up to `k`. */
  function Candidates(raw: string, k: int): (r: seq<string>)
    ensures k >= 0 ==> |r| <= k
  {
    if raw == "" then [] else Take(CleanLines(SplitLines(raw)), k)
  }

  /** There are exactly `min(k, m)` candidates for an answer of `m`
      non-blank lines. */
  lemma CandidatesCount(raw: string, k: int)
    requires k >= 0
    ensures var m := |NonBlankLines(raw)|; |Candidates(raw, k)| == if k < m then k else m
  {
    CleanLinesCount(SplitLines(raw));
  }

  /** An answer with no visible character gives no candidate: such a task is
      counted as an empty response. */
  lemma BlankAnswerNoCandidates(raw: string, k: int)
    requires AllSpace(raw)
    ensures Candidates(raw, k) == []
  {
    NonBlankLinesOfBlank(raw);
    CleanLinesCount(SplitLines(raw));
  }

  /** `line.strip()` is not empty. */
  predicate NonBlank(line: string) { !AllSpace(line) }

  /** What `random.sample(lines, min(n, len(lines)))` may return. */
  predicate IsSample(sample: seq<string>, lines: seq<string>, n: int) {
    n > 0 ==> multiset(sample) <= multiset(lines) && |sample| == (if n < |lines| then n else |lines|)
  }

  const NO_TASKS: string := "Nessun task trovato. Controlla il formato del file JSONL."

  /** The lines the prediction task loop reads, as written: the non-blank `lines` of
      the file; with `n > 0` the `sample` drawn from them when it is not
      empty. With `n <= 0` the name `random_lines` is never bound and
      reading it raises `UnboundLocalError`. */
  function TaskLinesAsWritten(lines: seq<string>, sample: seq<string>, n: int): (r: Result<seq<string>>)
    ensures n > 0 <==> r.Ok?
  {
    if n > 0 then Ok(if sample != [] then sample else lines)
    else Err("UnboundLocalError: random_lines")
  }

  /** The lines as intended: every line when `n <= 0`, else the sample. */
  function TaskLines(lines: seq<string>, sample: seq<string>, n: int): (r: seq<string>)
    requires n > 0 ==> multiset(sample) <= multiset(lines) && |sample| == (if n < |lines| then n else |lines|)
    ensures n <= 0 ==> r == lines
    ensures n > 0 ==> multiset(r) <= multiset(lines) && |r| == (if n < |lines| then n else |lines|)
  {
    if n > 0 && sample != [] then sample else lines
  }

  /** The finding: with `n == 0`, which the comment at the call promises
      means every session, no task is evaluated at all; the corrected
      selection takes every line. */
  lemma AllSessionsUnbound(lines: seq<string>, sample: seq<string>)
    ensures TaskLinesAsWritten(lines, sample, 0).Err?
    ensures TaskLines(lines, sample, 0) == lines
  {
  }

  /** Where the script picks its lines, the corrected selection agrees with
      the code as written. */
  lemma TaskLinesAgree(lines: seq<string>, sample: seq<string>, n: int)
    requires n > 0 && multiset(sample) <= multiset(lines) && |sample| == (if n < |lines| then n else |lines|)
    ensures TaskLinesAsWritten(lines, sample, n) == Ok(TaskLines(lines, sample, n))
  {
  }
}
