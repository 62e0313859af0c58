/** The input line of the fake SSH shell, as both front ends handle it
    (deception/session_handler.py and the older Deception/Brain.py run the
    same key loop): the bytes a client sends edit a buffer of characters
    under a cursor, the arrow keys walk the session's history, and Tab asks
    the brain for completions of the word being typed. */
module LineEditing {
  import opened Outcomes
  import opened PyText
  import opened Seqs

  newtype Byte = x: int | 0 <= x < 256

  /** What `get_autocomplete_candidates` returns: the word being completed
      (`None` for a blank buffer) and the candidates that start with it. */
  datatype Completion = Completion(partial: Option<string>, candidates: seq<string>)

  /** `[x for x in xs if x.startswith(p)]`. */
  function Matching(xs: seq<string>, p: string): (r: seq<string>)
    ensures forall k :: 0 <= k < |r| ==> p <= r[k] && r[k] in xs
    ensures forall x :: x in xs && p <= x ==> x in r
    ensures p == "" ==> r == xs
  {
    if xs == [] then [] else (if p <= xs[0] then [xs[0]] else []) + Matching(xs[1..], p)
  }

  /** `get_autocomplete_candidates`: after a trailing space the next word is
      a file of the current directory; a single unfinished word is a command;
      any later unfinished word is a file. `commands` is the brain's list of
      common commands, `files` the listing of the current directory. */
  function Complete(buffer: seq<char>, commands: seq<string>, files: seq<string>): Completion
  {
    var parts := SplitWs(buffer);
    if parts == [] || buffer == [] then Completion(None, [])
    else if buffer[|buffer| - 1] == ' ' then Completion(Some(""), Matching(files, ""))
    else
      var partial := parts[|parts| - 1];
      Completion(Some(partial), Matching(if |parts| == 1 then commands else files, partial))
  }

  /** A blank buffer offers nothing; any other buffer names a partial word. */
  lemma CompleteBlank(buffer: seq<char>, commands: seq<string>, files: seq<string>)
    ensures var r := Complete(buffer, commands, files);
      (r.partial.None? <==> AllSpace(buffer))
      && (r.partial.None? ==> r.candidates == [])
  {
    SplitWsEmpty(buffer);
  }

  /** After a trailing space every file of the directory is offered, in order. */
  lemma CompleteAfterSpace(buffer: seq<char>, commands: seq<string>, files: seq<string>)
    requires !AllSpace(buffer) && buffer[|buffer| - 1] == ' '
    ensures Complete(buffer, commands, files) == Completion(Some(""), files)
  {
    SplitWsEmpty(buffer);
  }

  /** Otherwise the partial word is the last word typed, never empty and free
      of white space, and the candidates are exactly the entries of the
      command list (for the first word) or of the listing (for a later one)
      that start with it. */
  lemma CompleteWord(buffer: seq<char>, commands: seq<string>, files: seq<string>)
    requires !AllSpace(buffer) && buffer[|buffer| - 1] != ' '
    ensures var r := Complete(buffer, commands, files);
      var words := SplitWs(buffer);
      var source := if |words| == 1 then commands else files;
      r.partial == Some(words[|words| - 1])
      && r.partial.value != [] && NoSpace(r.partial.value)
      && (forall k :: 0 <= k < |r.candidates| ==> r.partial.value <= r.candidates[k] && r.candidates[k] in source)
      && (forall c :: c in source && r.partial.value <= c ==> c in r.candidates)
  {
    SplitWsEmpty(buffer);
    SplitWsTokens(buffer);
    var words := SplitWs(buffer);
    assert words[|words| - 1] != [] && NoSpace(words[|words| - 1]);
  }

  /** The text Tab inserts: the rest of the candidate after the partial word
      when exactly one candidate is offered, and nothing otherwise. */
  function TabText(c: Completion): string {
    if |c.candidates| == 1 && c.partial.Some? then
      var m, p := c.candidates[0], c.partial.value;
      if |p| <= |m| then m[|p|..] else ""
    else ""
  }

  /** A unique completion turns the partial word into the whole candidate. */
  lemma TabTextCompletes(buffer: seq<char>, commands: seq<string>, files: seq<string>)
    requires |Complete(buffer, commands, files).candidates| == 1
    ensures var r := Complete(buffer, commands, files);
      r.partial.Some? && r.partial.value + TabText(r) == r.candidates[0]
  {
    var r := Complete(buffer, commands, files);
    assert r.candidates[0] in r.candidates;
  }

  /** The keys the front ends tell apart. `Esc` carries the two bytes read
      after an escape byte; `Raw` is any other byte. */
  datatype Key = Enter | TabKey | EraseKey | Esc(tail: seq<Byte>) | Raw(b: Byte)

  /** The key a byte read from the channel stands for (the escape byte reads
      two more, given here as `next`). */
  function KeyOf(b: Byte, next: seq<Byte>): Key {
    if b == 13 then Enter
    else if b == 9 then TabKey
    else if b == 127 || b == 8 then EraseKey
    else if b == 27 then Esc(next)
    else Raw(b)
  }

  const UP: seq<Byte> := [0x5B, 0x41]
  const DOWN: seq<Byte> := [0x5B, 0x42]
  const RIGHT: seq<Byte> := [0x5B, 0x43]
  const LEFT: seq<Byte> := [0x5B, 0x44]

  /** The editing state of one input line: `cmd_buffer`, `cursor_pos` and
      `history_index`. */
  datatype EditState = EditState(buffer: seq<char>, cursor: nat, index: nat)

  predicate Valid(s: EditState, history: seq<string>) {
    s.cursor <= |s.buffer| && s.index <= |history|
  }

  /** A fresh line: empty, cursor at 0, history index past the last entry. */
  function Start(history: seq<string>): (s: EditState)
    ensures Valid(s, history)
  {
    EditState([], 0, |history|)
  }

  function InsertText(s: EditState, text: string): (r: EditState)
    requires s.cursor <= |s.buffer|
  {
    EditState(s.buffer[..s.cursor] + text + s.buffer[s.cursor..], s.cursor + |text|, s.index)
  }

  /** History entry `i` copied into the buffer, cursor at its end. */
  function Recall(history: seq<string>, i: nat): EditState
    requires i < |history|
  {
    EditState(history[i], |history[i]|, i)
  }

  /** One key of the input loop. Enter leaves the buffer as it is (it ends
      the line); a byte that is not one UTF-8 character on its own (128 and
      above) is ignored. */
  function Step(s: EditState, k: Key, history: seq<string>, commands: seq<string>, files: seq<string>): EditState
    requires Valid(s, history)
  {
    match k
    case Enter => s
    case TabKey => InsertText(s, TabText(Complete(s.buffer, commands, files)))
    case EraseKey =>
      if s.cursor > 0 then EditState(s.buffer[..s.cursor - 1] + s.buffer[s.cursor..], s.cursor - 1, s.index) else s
    case Esc(q) =>
      if q == UP && s.index > 0 then Recall(history, s.index - 1)
      else if q == DOWN then
        (if s.index < |history| then
           (if s.index + 1 == |history| then EditState([], 0, |history|) else Recall(history, s.index + 1))
         else s)
      else if q == RIGHT then (if s.cursor < |s.buffer| then s.(cursor := s.cursor + 1) else s)
      else if q == LEFT then (if s.cursor > 0 then s.(cursor := s.cursor - 1) else s)
      else s
    case Raw(b) => if b < 128 then InsertText(s, [b as int as char]) else s
  }

  /** Every key keeps the cursor inside the buffer and the history index
      inside `0..len(history)`. */
  lemma StepValid(s: EditState, k: Key, history: seq<string>, commands: seq<string>, files: seq<string>)
    requires Valid(s, history)
    ensures Valid(Step(s, k, history, commands, files), history)
  {
  }

  /** A character typed at the cursor lands there and moves the cursor one
      place; backspace right after it puts the line back as it was. */
  lemma EraseUndoesInsert(s: EditState, b: Byte, history: seq<string>, commands: seq<string>, files: seq<string>)
    requires Valid(s, history) && b < 128
    ensures var t := Step(s, Raw(b), history, commands, files);
      t.buffer[t.cursor - 1] == b as int as char && t.cursor == s.cursor + 1
      && Step(t, EraseKey, history, commands, files) == s
  {
    var t := Step(s, Raw(b), history, commands, files);
    assert t.buffer[..t.cursor - 1] == s.buffer[..s.cursor];
    assert t.buffer[t.cursor..] == s.buffer[s.cursor..];
    assert s.buffer[..s.cursor] + s.buffer[s.cursor..] == s.buffer;
  }

  /** Backspace at the start of the line and the arrow keys change no text. */
  lemma CursorKeysKeepText(s: EditState, q: seq<Byte>, history: seq<string>, commands: seq<string>, files: seq<string>)
    requires Valid(s, history) && (q == LEFT || q == RIGHT)
    ensures Step(s, Esc(q), history, commands, files).buffer == s.buffer
    ensures s.cursor == 0 ==> Step(s, EraseKey, history, commands, files) == s
  {
  }

  /** Up from a fresh line recalls the last command; Down from there empties
      the line again, so a line being typed is lost once Up is pressed. */
  lemma DownAfterUpDropsDraft(s: EditState, history: seq<string>, commands: seq<string>, files: seq<string>)
    requires Valid(s, history) && s.index == |history| && history != []
    ensures var t := Step(s, Esc(UP), history, commands, files);
      t == Recall(history, |history| - 1)
      && Step(t, Esc(DOWN), history, commands, files) == Start(history)
  {
  }

  /** Up then Down inside the history returns to the entry it started on. */
  lemma DownAfterUp(s: EditState, history: seq<string>, commands: seq<string>, files: seq<string>)
    requires Valid(s, history) && 0 < s.index < |history|
    ensures var t := Step(s, Esc(UP), history, commands, files);
      Step(t, Esc(DOWN), history, commands, files) == Recall(history, s.index)
  {
  }

  /** The state after a run of keys, none of them Enter. */
  function Run(s: EditState, keys: seq<Key>, history: seq<string>, commands: seq<string>, files: seq<string>): (r: EditState)
    requires Valid(s, history)
    ensures Valid(r, history)
    decreases |keys|
  {
    if keys == [] then s
    else
      var prev := Run(s, keys[..|keys| - 1], history, commands, files);
      StepValid(prev, keys[|keys| - 1], history, commands, files);
      Step(prev, keys[|keys| - 1], history, commands, files)
  }

  /** The position of the first Enter in `keys`, or `|keys|` when there is none. */
  function FirstEnter(keys: seq<Key>): (n: nat)
    ensures n <= |keys|
    ensures forall i :: 0 <= i < n ==> keys[i] != Enter
    ensures n < |keys| ==> keys[n] == Enter
  {
    if keys == [] || keys[0] == Enter then 0 else 1 + FirstEnter(keys[1..])
  }

  /** What a full line of keys yields: `None` when the channel closes before
      Enter (the session ends), otherwise the stripped buffer. */
  function LineOf(keys: seq<Key>, history: seq<string>, commands: seq<string>, files: seq<string>): Option<string> {
    var n := FirstEnter(keys);
    if n == |keys| then None
    else Some(Strip(Run(Start(history), keys[..n], history, commands, files).buffer))
  }

  /** Typed characters with no editing keys give the typed text back. */
  lemma {:induction false} TypedText(keys: seq<Key>, history: seq<string>, commands: seq<string>, files: seq<string>)
    requires forall i :: 0 <= i < |keys| ==> keys[i].Raw? && keys[i].b < 128
    ensures var r := Run(Start(history), keys, history, commands, files);
      |r.buffer| == |keys| && r.cursor == |keys| && r.index == |history|
      && forall i :: 0 <= i < |keys| ==> r.buffer[i] == keys[i].b as int as char
    decreases |keys|
  {
    if keys != [] {
      var init := keys[..|keys| - 1];
      TypedText(init, history, commands, files);
      var prev := Run(Start(history), init, history, commands, files);
      var r := Run(Start(history), keys, history, commands, files);
      assert prev.buffer[..prev.cursor] == prev.buffer;
      assert r.buffer == prev.buffer + [keys[|keys| - 1].b as int as char];
      forall i | 0 <= i < |keys| ensures r.buffer[i] == keys[i].b as int as char {
        if i < |init| { assert r.buffer[i] == prev.buffer[i] && keys[i] == init[i]; }
      }
    }
  }

  /** One input line of a session: the buffer, the cursor and the history
      index change in place as keys arrive; the history is read only. */
  class LineEditor {
    var buffer: seq<char>
    var cursor: nat
    var historyIndex: nat
    const history: seq<string>

    function State(): EditState
      reads this
    {
      EditState(buffer, cursor, historyIndex)
    }

    predicate Ready()
      reads this
    {
      Valid(State(), history)
    }

    constructor(history: seq<string>)
      ensures this.history == history && State() == Start(history)
    {
      this.history := history;
      buffer := [];
      cursor := 0;
      historyIndex := |history|;
    }

    /** `cmd_buffer.insert(cursor_pos, c)` once per character of `text`,
        advancing the cursor each time. */
    method InsertAll(text: string)
      requires Ready()
      modifies this
      ensures State() == InsertText(old(State()), text)
    {
      ghost var before, at := buffer, cursor;
      var i := 0;
      while i < |text|
        invariant 0 <= i <= |text|
        invariant cursor == at + i && historyIndex == old(historyIndex)
        invariant buffer == before[..at] + text[..i] + before[at..]
      {
        assert text[..i + 1] == text[..i] + [text[i]];
        buffer := buffer[..cursor] + [text[i]] + buffer[cursor..];
        cursor := cursor + 1;
        assert buffer[..cursor] == before[..at] + text[..i + 1];
        i := i + 1;
      }
      assert text[..i] == text;
    }

    method Erase()
      requires Ready()
      modifies this
      ensures State() == Step(old(State()), EraseKey, history, [], [])
    {
      if cursor > 0 {
        cursor := cursor - 1;
        buffer := buffer[..cursor] + buffer[cursor + 1..];
      }
    }

    method Arrow(q: seq<Byte>)
      requires Ready()
      modifies this
      ensures State() == Step(old(State()), Esc(q), history, [], [])
    {
      if q == UP && historyIndex > 0 {
        historyIndex := historyIndex - 1;
        buffer := history[historyIndex];
        cursor := |buffer|;
      } else if q == DOWN {
        if historyIndex < |history| {
          historyIndex := historyIndex + 1;
          if historyIndex == |history| {
            buffer := [];
            cursor := 0;
          } else {
            buffer := history[historyIndex];
            cursor := |buffer|;
          }
        }
      } else if q == RIGHT {
        if cursor < |buffer| {
          cursor := cursor + 1;
        }
      } else if q == LEFT {
        if cursor > 0 {
          cursor := cursor - 1;
        }
      }
    }

    /** One key. Tab takes its completion from the brain's command list and
        the listing of the current directory. */
    method Feed(k: Key, commands: seq<string>, files: seq<string>)
      requires Ready()
      modifies this
      ensures Ready()
      ensures State() == Step(old(State()), k, history, commands, files)
    {
      match k {
        case Enter =>
        case TabKey =>
          InsertAll(TabText(Complete(buffer, commands, files)));
        case EraseKey =>
          Erase();
        case Esc(q) =>
          Arrow(q);
        case Raw(b) =>
          if b < 128 {
            InsertAll([b as int as char]);
          }
      }
    }

    /** The inner loop of the session: keys are consumed up to the first
        Enter; a channel that runs dry first ends the session (`None`). */
    method ReadLine(keys: seq<Key>, commands: seq<string>, files: seq<string>) returns (line: Option<string>)
      requires State() == Start(history)
      modifies this
      ensures line == LineOf(keys, history, commands, files)
    {
      var i := 0;
      while i < |keys| && keys[i] != Enter
        invariant 0 <= i <= FirstEnter(keys)
        invariant Ready()
        invariant State() == Run(Start(history), keys[..i], history, commands, files)
      {
        assert keys[..i + 1][..i] == keys[..i];
        Feed(keys[i], commands, files);
        i := i + 1;
      }
      if i == |keys| {
        line := None;
      } else {
        line := Some(Strip(buffer));
      }
    }
  }
}
