/** JSON values as the scripts see them after `json.loads`, with Python's
    truthiness and the `a or b` idiom they use to pick the first present field. */
module JsonValue {
  import opened Outcomes

  datatype Json =
    | JNull
    | JBool(b: bool)
    | JNum(n: int)
    | JStr(s: string)
    | JArr(items: seq<Json>)
    | JObj(fields: map<string, Json>)

  /** `bool(v)` in Python. */
  predicate Truthy(j: Json) {
    match j
    case JNull => false
    case JBool(b) => b
    case JNum(n) => n != 0
    case JStr(s) => s != ""
    case JArr(items) => items != []
    case JObj(fields) => fields != map[]
  }

  /** `obj.get(key)`: a missing key reads as `None`, which is `JNull` here. */
  function Get(obj: map<string, Json>, key: string): (r: Json)
    ensures key !in obj ==> r == JNull
  {
    if key in obj then obj[key] else JNull
  }

  /** `a or b`. */
  function Or(a: Json, b: Json): (r: Json)
    ensures Truthy(a) ==> r == a
    ensures !Truthy(a) ==> r == b
  {
    if Truthy(a) then a else b
  }

  /** `len(v)`, or `None` where Python raises `TypeError`. */
  function Len(j: Json): (r: Option<nat>)
    ensures r.Some? <==> (j.JStr? || j.JArr? || j.JObj?)
  {
    match j
    case JStr(s) => Some(|s|)
    case JArr(items) => Some(|items|)
    case JObj(fields) => Some(|fields|)
    case _ => None
  }

  /** A JSON list of strings, as the session files store `commands`. */
  function Strings(j: Json): (r: Option<seq<string>>)
    ensures r.Some? ==> j.JArr? && |r.value| == |j.items|
    ensures r.Some? ==> forall k :: 0 <= k < |r.value| ==> j.items[k] == JStr(r.value[k])
  {
    if j.JArr? then AllStrings(j.items) else None
  }

  function AllStrings(items: seq<Json>): (r: Option<seq<string>>)
    ensures r.Some? ==> |r.value| == |items|
    ensures r.Some? ==> forall k :: 0 <= k < |items| ==> items[k] == JStr(r.value[k])
    ensures r.None? ==> exists k :: 0 <= k < |items| && !items[k].JStr?
  {
    if items == [] then Some([])
    else if !items[0].JStr? then None
    else
      match AllStrings(items[1..])
      case None => None
      case Some(rest) => Some([items[0].s] + rest)
  }

  /** The one-character strings that iterating or slicing a string gives. */
  function Chars(s: string): (r: seq<string>)
    ensures |r| == |s| && forall i :: 0 <= i < |s| ==> r[i] == [s[i]]
  {
    seq(|s|, i requires 0 <= i < |s| => [s[i]])
  }

  /** A `commands` value as the sliding-window loops read it with `len`,
      slices and indexing: a string is its characters and a list of strings
      is itself; a value without `len` raises `TypeError`, and so does a
      dictionary of two or more keys, which the first slice reaches; a
      dictionary of fewer keys gives that many commands the loops never
      read. `None` for a list holding a non-string. */
  function CommandList(j: Json): (r: Result<Option<seq<string>>>)
    ensures r.Err? <==> Len(j).None? || (j.JObj? && |j.fields| >= 2)
    ensures r.Ok? && r.value.Some? ==> |r.value.value| == Len(j).value
    ensures j.JStr? ==> r == Ok(Some(Chars(j.s)))
    ensures j.JArr? ==> r == Ok(Strings(j))
  {
    match j
    case JStr(s) => Ok(Some(Chars(s)))
    case JArr(_) => Ok(Strings(j))
    case JObj(fields) =>
      if |fields| >= 2 then Err("TypeError: unhashable type: 'slice'")
      else Ok(Some(seq(|fields|, _ => "")))
    case _ => Err("TypeError: object has no len()")
  }

  /** The sessions with their commands as the window loops read them, in
      order, or the error of the first session whose commands raise; a
      session whose list holds a non-string is left out. */
  function CommandLists(sessions: seq<(Json, Json)>, m: nat): (r: Result<seq<(Json, seq<string>)>>)
    requires forall j :: 0 <= j < |sessions| ==> Len(sessions[j].1).Some? ==> Len(sessions[j].1).value >= m
    ensures r.Ok? ==> |r.value| <= |sessions| && forall j :: 0 <= j < |r.value| ==> |r.value[j].1| >= m
  {
    if sessions == [] then Ok([])
    else match CommandLists(sessions[..|sessions| - 1], m)
      case Err(e) => Err(e)
      case Ok(init) =>
        var last := sessions[|sessions| - 1];
        match CommandList(last.1)
        case Err(e) => Err(e)
        case Ok(None) => Ok(init)
        case Ok(Some(cs)) => Ok(init + [(last.0, cs)])
  }

  /** The loops raise exactly when some session's commands raise. */
  lemma {:induction false} CommandListsErr(sessions: seq<(Json, Json)>, m: nat)
    requires forall j :: 0 <= j < |sessions| ==> Len(sessions[j].1).Some? ==> Len(sessions[j].1).value >= m
    ensures CommandLists(sessions, m).Err? <==> exists j :: 0 <= j < |sessions| && CommandList(sessions[j].1).Err?
  {
    if sessions != [] {
      var init := sessions[..|sessions| - 1];
      CommandListsErr(init, m);
      if CommandLists(init, m).Err? {
        var j :| 0 <= j < |init| && CommandList(init[j].1).Err?;
        assert sessions[j] == init[j];
      }
      forall j | 0 <= j < |init| ensures init[j] == sessions[j] { }
    }
  }
}
