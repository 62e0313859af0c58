/** Optional values and Python-style error returns shared by every module. */
module Outcomes {

  datatype Option<T> = None | Some(value: T)

  /** An operation of the program that either produces a value or stops with
      the exception (or `sys.exit`) the program would raise at that point. */
  datatype Result<T> = Ok(value: T) | Err(error: string)

  /** The values of a run of steps, or the error of the first step that
      failed: what a loop that stops at its first exception produces. */
  function Collect<T>(rs: seq<Result<T>>): (r: Result<seq<T>>)
    ensures r.Ok? <==> forall k :: 0 <= k < |rs| ==> rs[k].Ok?
    ensures r.Ok? ==> |r.value| == |rs| && forall k :: 0 <= k < |rs| ==> rs[k] == Ok(r.value[k])
  {
    if rs == [] then Ok([])
    else if rs[0].Err? then Err(rs[0].error)
    else match Collect(rs[1..])
      case Err(e) => Err(e)
      case Ok(v) => Ok([rs[0].value] + v)
  }

  /** One more successful step extends the values; one more failed step
      after successful ones gives its error. */
  lemma {:induction false} CollectSnoc<T>(rs: seq<Result<T>>, x: Result<T>)
    requires Collect(rs).Ok?
    ensures x.Ok? ==> Collect(rs + [x]) == Ok(Collect(rs).value + [x.value])
    ensures x.Err? ==> Collect(rs + [x]) == Err(x.error)
  {
    if rs != [] {
      assert (rs + [x])[0] == rs[0] && (rs + [x])[1..] == rs[1..] + [x];
      assert rs[0].Ok?;
      CollectSnoc(rs[1..], x);
      var v := Collect(rs[1..]).value;
      assert Collect(rs).value == [rs[0].value] + v;
      if x.Ok? {
        assert Collect(rs + [x]) == Ok([rs[0].value] + (v + [x.value]));
        assert [rs[0].value] + (v + [x.value]) == ([rs[0].value] + v) + [x.value];
      }
    } else {
      assert rs + [x] == [x] && [x][1..] == [];
      assert Collect([x][1..]) == Ok([]);
      assert x.Ok? ==> [x.value] + [] == Collect(rs).value + [x.value];
    }
  }

  /** The error of the first failed step is the error of the run. */
  lemma {:induction false} CollectFirstErr<T>(rs: seq<Result<T>>, i: nat)
    requires i < |rs| && rs[i].Err? && forall j :: 0 <= j < i ==> rs[j].Ok?
    ensures Collect(rs) == Err(rs[i].error)
  {
    if i > 0 {
      CollectFirstErr(rs[1..], i - 1);
    }
  }

  /** One pass of such a loop: the values so far grow by the next value, or
      the whole run ends with the next step's error. */
  lemma CollectStep<T>(rs: seq<Result<T>>, i: nat, done: seq<T>)
    requires i < |rs| && Collect(rs[..i]) == Ok(done)
    ensures rs[i].Ok? ==> Collect(rs[..i + 1]) == Ok(done + [rs[i].value])
    ensures rs[i].Err? ==> Collect(rs) == Err(rs[i].error)
  {
    if rs[i].Ok? {
      CollectGrow(rs, i);
    } else {
      CollectPrefixOk(rs, i);
      CollectFirstErr(rs, i);
    }
  }

  lemma CollectGrow<T>(rs: seq<Result<T>>, i: nat)
    requires i < |rs| && Collect(rs[..i]).Ok? && rs[i].Ok?
    ensures Collect(rs[..i + 1]) == Ok(Collect(rs[..i]).value + [rs[i].value])
  {
    assert rs[..i + 1] == rs[..i] + [rs[i]];
    CollectSnoc(rs[..i], rs[i]);
  }

  lemma CollectPrefixOk<T>(rs: seq<Result<T>>, i: nat)
    requires i <= |rs| && Collect(rs[..i]).Ok?
    ensures forall j :: 0 <= j < i ==> rs[j].Ok?
  {
    var xs := rs[..i];
    assert forall j :: 0 <= j < i ==> xs[j] == rs[j];
  }
}
