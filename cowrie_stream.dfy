/** The nested loops with which the Cowrie dataset tools walk an export:
    for each session object of the top-level list, for each session id and
    its events, for each event. The walk is flattened into a stream of steps,
    each an event labelled with its session id or the exception the walk
    raises at that point, and a loop over the export is a left fold over the
    stream that stops at the first exception. */
module CowrieStream {
  import opened Outcomes
  import opened JsonValue
  import opened Seqs

  /** One entry of the top-level list: a session object, its keys (session
      ids) and values (events) in file order, or a value of another kind. */
  datatype SessionObj = Sessions(items: seq<(string, Json)>) | NotAnObject(value: Json)

  datatype Step = Ev(sid: string, ev: Json) | Fail(error: string)

  const NO_ITEMS := "AttributeError: object has no attribute 'items'"
  const NO_GET := "AttributeError: 'str' object has no attribute 'get'"
  const NOT_ITERABLE := "TypeError: object is not iterable"

  /** `for ev in events`: a list gives its items; a string or an object gives
      strings (characters, keys), on which the loop body's `ev.get` fails;
      numbers, booleans and `None` cannot be iterated. */
  function EventsOf(events: Json): (r: Result<seq<Json>>)
    ensures events.JArr? ==> r == Ok(events.items)
    ensures events.JNum? || events.JBool? || events.JNull? ==> r == Err(NOT_ITERABLE)
    ensures (events.JStr? || events.JObj?) ==> (r.Ok? <==> !Truthy(events)) && (r.Ok? ==> r.value == [])
  {
    match events
    case JArr(items) => Ok(items)
    case JStr(s) => if s == "" then Ok([]) else Err(NO_GET)
    case JObj(m) => if m == map[] then Ok([]) else Err(NO_GET)
    case _ => Err(NOT_ITERABLE)
  }

  function EvSteps(tag: string, evs: seq<Json>): (r: seq<Step>)
    ensures |r| == |evs| && forall k :: 0 <= k < |evs| ==> r[k] == Ev(tag, evs[k])
  {
    seq(|evs|, k requires 0 <= k < |evs| => Ev(tag, evs[k]))
  }

  /** The steps of one session id and its events; `prefix` is put in front
      of the session id (the merge tool's `<date>_`, or nothing). */
  function ItemSteps(prefix: string, item: (string, Json)): seq<Step> {
    match EventsOf(item.1)
    case Ok(evs) => EvSteps(prefix + item.0, evs)
    case Err(e) => [Fail(e)]
  }

  function ItemsSteps(prefix: string, items: seq<(string, Json)>): seq<Step>
    decreases |items|
  {
    if items == [] then [] else ItemsSteps(prefix, items[..|items| - 1]) + ItemSteps(prefix, items[|items| - 1])
  }

  function ObjSteps(prefix: string, obj: SessionObj): seq<Step> {
    match obj
    case Sessions(items) => ItemsSteps(prefix, items)
    case NotAnObject(_) => [Fail(NO_ITEMS)]
  }

  /** The whole walk over the top-level list. */
  function Stream(prefix: string, objs: seq<SessionObj>): seq<Step>
    decreases |objs|
  {
    if objs == [] then [] else Stream(prefix, objs[..|objs| - 1]) + ObjSteps(prefix, objs[|objs| - 1])
  }

  lemma {:induction false} ItemsStepsAppend(prefix: string, a: seq<(string, Json)>, b: seq<(string, Json)>)
    ensures ItemsSteps(prefix, a + b) == ItemsSteps(prefix, a) + ItemsSteps(prefix, b)
    decreases |b|
  {
    if b != [] {
      var c := b[..|b| - 1];
      assert (a + b)[..|a + b| - 1] == a + c;
      assert b[..|b| - 1] == c;
      ItemsStepsAppend(prefix, a, c);
    } else {
      assert a + b == a;
    }
  }

  lemma {:induction false} StreamAppend(prefix: string, a: seq<SessionObj>, b: seq<SessionObj>)
    ensures Stream(prefix, a + b) == Stream(prefix, a) + Stream(prefix, b)
    decreases |b|
  {
    if b != [] {
      var c := b[..|b| - 1];
      assert (a + b)[..|a + b| - 1] == a + c;
      StreamAppend(prefix, a, c);
    } else {
      assert a + b == a;
    }
  }

  /** A loop body applied to the events in stream order, stopping at the
      first exception: `f` is what the body does with one event. */
  function Fold<S>(s0: S, steps: seq<Step>, f: (S, string, Json) -> Result<S>): Result<S>
    decreases |steps|
  {
    if steps == [] then Ok(s0)
    else match Fold(s0, steps[..|steps| - 1], f)
      case Err(e) => Err(e)
      case Ok(s) =>
        match steps[|steps| - 1]
        case Fail(e) => Err(e)
        case Ev(sid, ev) => f(s, sid, ev)
  }

  /** Folding over two runs of steps is folding over the second from where
      the first one left off; an exception ends the fold for good. */
  lemma {:induction false} FoldAppend<S>(s0: S, a: seq<Step>, b: seq<Step>, f: (S, string, Json) -> Result<S>)
    ensures Fold(s0, a + b, f) == (match Fold(s0, a, f) case Ok(s) => Fold(s, b, f) case Err(e) => Err(e))
    decreases |b|
  {
    if b == [] {
      assert a + b == a;
    } else {
      var c := b[..|b| - 1];
      assert (a + b)[..|a + b| - 1] == a + c;
      assert (a + b)[|a + b| - 1] == b[|b| - 1];
      FoldAppend(s0, a, c, f);
    }
  }

  /** An exception ends the fold for good. */
  lemma FoldStops<S>(s0: S, a: seq<Step>, b: seq<Step>, f: (S, string, Json) -> Result<S>)
    requires Fold(s0, a, f).Err?
    ensures Fold(s0, a + b, f) == Fold(s0, a, f)
  {
    FoldAppend(s0, a, b, f);
  }

  /** A fold that completes completed its last step as well. */
  lemma FoldLast<S>(s0: S, steps: seq<Step>, f: (S, string, Json) -> Result<S>, s: S)
    requires steps != [] && Fold(s0, steps, f) == Ok(s)
    ensures steps == steps[..|steps| - 1] + [steps[|steps| - 1]]
    ensures Fold(s0, steps[..|steps| - 1], f).Ok? && steps[|steps| - 1].Ev?
    ensures f(Fold(s0, steps[..|steps| - 1], f).value, steps[|steps| - 1].sid, steps[|steps| - 1].ev) == Ok(s)
  {
    Snoc(steps);
    var r := Fold(s0, steps[..|steps| - 1], f);
    assert r.Ok?;
    assert steps[|steps| - 1].Ev?;
  }

  lemma FoldSnoc<S>(s0: S, a: seq<Step>, x: Step, f: (S, string, Json) -> Result<S>)
    ensures Fold(s0, a + [x], f) == (match Fold(s0, a, f)
      case Err(e) => Err(e)
      case Ok(s) => (match x case Fail(e) => Err(e) case Ev(sid, ev) => f(s, sid, ev)))
  {
    assert (a + [x])[..|a|] == a;
  }

  // ---------------------------------------------------------------------
  // The loops themselves
  // ---------------------------------------------------------------------

  /** `for ev in events:` with the body `f`. */
  method FoldEvents<S>(s0: S, tag: string, evs: seq<Json>, f: (S, string, Json) -> Result<S>) returns (r: Result<S>)
    ensures r == Fold(s0, EvSteps(tag, evs), f)
  {
    var s := s0;
    var i := 0;
    while i < |evs|
      invariant 0 <= i <= |evs|
      invariant Fold(s0, EvSteps(tag, evs[..i]), f) == Ok(s)
    {
      EventsNext(s0, tag, evs, i, s, f);
      var next := f(s, tag, evs[i]);
      if next.Err? {
        EventsStop(s0, tag, evs, i + 1, f);
        return next;
      }
      s := next.value;
      i := i + 1;
    }
    assert evs[..i] == evs;
    return Ok(s);
  }

  lemma EventsNext<S>(s0: S, tag: string, evs: seq<Json>, i: nat, s: S, f: (S, string, Json) -> Result<S>)
    requires i < |evs| && Fold(s0, EvSteps(tag, evs[..i]), f) == Ok(s)
    ensures Fold(s0, EvSteps(tag, evs[..i + 1]), f) == f(s, tag, evs[i])
  {
    assert EvSteps(tag, evs[..i + 1]) == EvSteps(tag, evs[..i]) + [Ev(tag, evs[i])];
    FoldSnoc(s0, EvSteps(tag, evs[..i]), Ev(tag, evs[i]), f);
  }

  lemma EventsStop<S>(s0: S, tag: string, evs: seq<Json>, n: nat, f: (S, string, Json) -> Result<S>)
    requires n <= |evs| && Fold(s0, EvSteps(tag, evs[..n]), f).Err?
    ensures Fold(s0, EvSteps(tag, evs), f) == Fold(s0, EvSteps(tag, evs[..n]), f)
  {
    EvStepsSplit(tag, evs, n);
    FoldStops(s0, EvSteps(tag, evs[..n]), EvSteps(tag, evs[n..]), f);
  }

  lemma EvStepsSplit(tag: string, evs: seq<Json>, n: nat)
    requires n <= |evs|
    ensures EvSteps(tag, evs) == EvSteps(tag, evs[..n]) + EvSteps(tag, evs[n..])
  {
  }

  /** One session id and its events. */
  method FoldItem<S>(s: S, prefix: string, item: (string, Json), f: (S, string, Json) -> Result<S>) returns (r: Result<S>)
    ensures r == Fold(s, ItemSteps(prefix, item), f)
  {
    match EventsOf(item.1) {
      case Err(e) =>
        assert ItemSteps(prefix, item) == [] + [Fail(e)];
        r := Err(e);
      case Ok(evs) =>
        r := FoldEvents(s, prefix + item.0, evs, f);
    }
  }

  /** `for sid, events in session_obj.items():` with the event loop inside. */
  method FoldItems<S>(s0: S, prefix: string, items: seq<(string, Json)>, f: (S, string, Json) -> Result<S>)
    returns (r: Result<S>)
    ensures r == Fold(s0, ItemsSteps(prefix, items), f)
  {
    var s := s0;
    var j := 0;
    while j < |items|
      invariant 0 <= j <= |items|
      invariant Fold(s0, ItemsSteps(prefix, items[..j]), f) == Ok(s)
    {
      ItemsNext(s0, prefix, items, j, s, f);
      var next := FoldItem(s, prefix, items[j], f);
      if next.Err? {
        ItemsStop(s0, prefix, items, j + 1, f);
        return next;
      }
      s := next.value;
      j := j + 1;
    }
    assert items[..j] == items;
    return Ok(s);
  }

  lemma ItemsNext<S>(s0: S, prefix: string, items: seq<(string, Json)>, j: nat, s: S, f: (S, string, Json) -> Result<S>)
    requires j < |items| && Fold(s0, ItemsSteps(prefix, items[..j]), f) == Ok(s)
    ensures Fold(s0, ItemsSteps(prefix, items[..j + 1]), f) == Fold(s, ItemSteps(prefix, items[j]), f)
  {
    assert items[..j + 1][..j] == items[..j];
    assert ItemsSteps(prefix, items[..j + 1]) == ItemsSteps(prefix, items[..j]) + ItemSteps(prefix, items[j]);
    FoldAppend(s0, ItemsSteps(prefix, items[..j]), ItemSteps(prefix, items[j]), f);
  }

  lemma ItemsStop<S>(s0: S, prefix: string, items: seq<(string, Json)>, n: nat, f: (S, string, Json) -> Result<S>)
    requires n <= |items| && Fold(s0, ItemsSteps(prefix, items[..n]), f).Err?
    ensures Fold(s0, ItemsSteps(prefix, items), f) == Fold(s0, ItemsSteps(prefix, items[..n]), f)
  {
    ItemsStepsSplit(prefix, items, n);
    FoldStops(s0, ItemsSteps(prefix, items[..n]), ItemsSteps(prefix, items[n..]), f);
  }

  lemma ItemsStepsSplit(prefix: string, items: seq<(string, Json)>, n: nat)
    requires n <= |items|
    ensures ItemsSteps(prefix, items) == ItemsSteps(prefix, items[..n]) + ItemsSteps(prefix, items[n..])
  {
    SplitAt(items, n);
    ItemsStepsAppend(prefix, items[..n], items[n..]);
  }

  /** One entry of the top-level list. */
  method FoldObj<S>(s: S, prefix: string, obj: SessionObj, f: (S, string, Json) -> Result<S>) returns (r: Result<S>)
    ensures r == Fold(s, ObjSteps(prefix, obj), f)
  {
    match obj {
      case NotAnObject(_) =>
        assert ObjSteps(prefix, obj) == [] + [Fail(NO_ITEMS)];
        r := Err(NO_ITEMS);
      case Sessions(items) =>
        r := FoldItems(s, prefix, items, f);
    }
  }

  /** `for session_obj in data:` with the two inner loops. */
  method FoldStream<S>(s0: S, prefix: string, objs: seq<SessionObj>, f: (S, string, Json) -> Result<S>)
    returns (r: Result<S>)
    ensures r == Fold(s0, Stream(prefix, objs), f)
  {
    var s := s0;
    var i := 0;
    while i < |objs|
      invariant 0 <= i <= |objs|
      invariant Fold(s0, Stream(prefix, objs[..i]), f) == Ok(s)
    {
      StreamNext(s0, prefix, objs, i, s, f);
      var next := FoldObj(s, prefix, objs[i], f);
      if next.Err? {
        StreamStop(s0, prefix, objs, i + 1, f);
        return next;
      }
      s := next.value;
      i := i + 1;
    }
    assert objs[..i] == objs;
    return Ok(s);
  }

  lemma StreamNext<S>(s0: S, prefix: string, objs: seq<SessionObj>, i: nat, s: S, f: (S, string, Json) -> Result<S>)
    requires i < |objs| && Fold(s0, Stream(prefix, objs[..i]), f) == Ok(s)
    ensures Fold(s0, Stream(prefix, objs[..i + 1]), f) == Fold(s, ObjSteps(prefix, objs[i]), f)
  {
    assert objs[..i + 1][..i] == objs[..i];
    assert Stream(prefix, objs[..i + 1]) == Stream(prefix, objs[..i]) + ObjSteps(prefix, objs[i]);
    FoldAppend(s0, Stream(prefix, objs[..i]), ObjSteps(prefix, objs[i]), f);
  }

  lemma StreamStop<S>(s0: S, prefix: string, objs: seq<SessionObj>, n: nat, f: (S, string, Json) -> Result<S>)
    requires n <= |objs| && Fold(s0, Stream(prefix, objs[..n]), f).Err?
    ensures Fold(s0, Stream(prefix, objs), f) == Fold(s0, Stream(prefix, objs[..n]), f)
  {
    StreamSplit(prefix, objs, n);
    FoldStops(s0, Stream(prefix, objs[..n]), Stream(prefix, objs[n..]), f);
  }

  lemma StreamSplit(prefix: string, objs: seq<SessionObj>, n: nat)
    requires n <= |objs|
    ensures Stream(prefix, objs) == Stream(prefix, objs[..n]) + Stream(prefix, objs[n..])
  {
    SplitAt(objs, n);
    StreamAppend(prefix, objs[..n], objs[n..]);
  }

  /** Every event of the walk carries `prefix` in front of its session id. */
  lemma {:induction false} StreamPrefixed(prefix: string, objs: seq<SessionObj>)
    ensures forall k :: 0 <= k < |Stream(prefix, objs)| && Stream(prefix, objs)[k].Ev? ==> prefix <= Stream(prefix, objs)[k].sid
    decreases |objs|
  {
    if objs != [] {
      StreamPrefixed(prefix, objs[..|objs| - 1]);
      var last := objs[|objs| - 1];
      if last.Sessions? {
        ItemsPrefixed(prefix, last.items);
      }
    }
  }

  lemma {:induction false} ItemsPrefixed(prefix: string, items: seq<(string, Json)>)
    ensures forall k :: 0 <= k < |ItemsSteps(prefix, items)| && ItemsSteps(prefix, items)[k].Ev? ==> prefix <= ItemsSteps(prefix, items)[k].sid
    decreases |items|
  {
    if items != [] {
      ItemsPrefixed(prefix, items[..|items| - 1]);
      var item := items[|items| - 1];
      assert prefix <= prefix + item.0;
    }
  }
}
