/** Sequence operations with Python list semantics (slicing with signed bounds,
    comprehension filters and maps). */
module Seqs {

  /** `s[:n]` for a Python list or string, including a negative `n`. */
  function Take<T>(s: seq<T>, n: int): (r: seq<T>)
    ensures |r| <= |s|
    ensures r <= s
    ensures 0 <= n ==> |r| == if n < |s| then n else |s|
    ensures n < 0 ==> |r| == if |s| + n < 0 then 0 else |s| + n
  {
    if 0 <= n then (if n < |s| then s[..n] else s)
    else if |s| + n < 0 then [] else s[..|s| + n]
  }

  /** A prefix of `s` that is `n` long, or all of `s` when `s` is at most
      `n` long, is `s[:n]`. */
  lemma TakePrefix<T>(a: seq<T>, s: seq<T>, n: int)
    requires a <= s && (|a| == n || (a == s && |s| <= n))
    ensures Take(s, n) == a
  {
  }

  /** `s[-n:]` for a natural `n > 0`: the last `n` items, or all of them. */
  function Last<T>(s: seq<T>, n: nat): (r: seq<T>)
    ensures |r| == if n < |s| then n else |s|
    ensures r == s[|s| - |r|..]
  {
    if n < |s| then s[|s| - n..] else s
  }

  /** `[x for x in s if p(x)]`. */
  function Filter<T>(s: seq<T>, p: T -> bool): (r: seq<T>)
    ensures |r| <= |s|
    ensures forall k :: 0 <= k < |r| ==> p(r[k]) && r[k] in s
    ensures forall x :: x in s && p(x) ==> x in r
  {
    if s == [] then [] else (if p(s[0]) then [s[0]] else []) + Filter(s[1..], p)
  }

  lemma FilterAppend<T>(a: seq<T>, b: seq<T>, p: T -> bool)
    ensures Filter(a + b, p) == Filter(a, p) + Filter(b, p)
  {
    if a == [] {
      assert a + b == b;
    } else {
      assert (a + b)[0] == a[0];
      assert (a + b)[1..] == a[1..] + b;
      FilterAppend(a[1..], b, p);
      var h := if p(a[0]) then [a[0]] else [];
      calc {
        Filter(a + b, p);
        h + Filter(a[1..] + b, p);
        h + (Filter(a[1..], p) + Filter(b, p));
        (h + Filter(a[1..], p)) + Filter(b, p);
      }
    }
  }

  /** `[f(x) for x in s]`. */
  function Map<A, B>(s: seq<A>, f: A -> B): (r: seq<B>)
    ensures |r| == |s|
    ensures forall k :: 0 <= k < |s| ==> r[k] == f(s[k])
  {
    if s == [] then [] else [f(s[0])] + Map(s[1..], f)
  }

  lemma MapAppend<A, B>(a: seq<A>, b: seq<A>, f: A -> B)
    ensures Map(a + b, f) == Map(a, f) + Map(b, f)
  {
    var l, r := Map(a + b, f), Map(a, f) + Map(b, f);
    assert |l| == |r|;
    forall k | 0 <= k < |l| ensures l[k] == r[k] {
      if k < |a| {
        assert (a + b)[k] == a[k];
      } else {
        assert (a + b)[k] == b[k - |a|];
      }
    }
  }

  lemma FilterSingle<T>(x: T, p: T -> bool)
    ensures Filter([x], p) == if p(x) then [x] else []
  {
    assert [x][1..] == [];
  }

  /** Appending one item to a filtered-and-mapped list. */
  lemma FilterMapSnoc<A, B>(init: seq<A>, a: A, p: A -> bool, f: A -> B)
    ensures Map(Filter(init + [a], p), f) == Map(Filter(init, p), f) + (if p(a) then [f(a)] else [])
  {
    FilterAppend(init, [a], p);
    FilterSingle(a, p);
    MapAppend(Filter(init, p), Filter([a], p), f);
  }

  /** Number of items satisfying `p`, in the spirit of `sum(1 for x in s if p(x))`. */
  function Count<T>(s: seq<T>, p: T -> bool): (n: nat)
    ensures n <= |s|
    ensures n == |Filter(s, p)|
  {
    if s == [] then 0 else (if p(s[0]) then 1 else 0) + Count(s[1..], p)
  }

  lemma CountAppend<T>(a: seq<T>, b: seq<T>, p: T -> bool)
    ensures Count(a + b, p) == Count(a, p) + Count(b, p)
  {
    FilterAppend(a, b, p);
  }

  /** No value occurs twice. */
  predicate Distinct<T(==)>(s: seq<T>) {
    forall i, j :: 0 <= i < j < |s| ==> s[i] != s[j]
  }

  /** The set of items of a list. */
  function Elems<T>(s: seq<T>): set<T> {
    set x | x in s
  }

  lemma ElemsSnoc<T>(s: seq<T>, i: nat)
    requires i < |s|
    ensures Elems(s[..i + 1]) == Elems(s[..i]) + {s[i]}
  {
    assert s[..i + 1] == s[..i] + [s[i]];
  }

  /** Growing a prefix by one item. */
  lemma TakeSnoc<T>(s: seq<T>, i: nat)
    requires i < |s|
    ensures s[..i + 1] == s[..i] + [s[i]]
  {
  }

  /** `{f(x) for x in s if p(x)}`. */
  ghost function Image<A, B>(s: seq<A>, p: A -> bool, f: A -> B): set<B> {
    set k | 0 <= k < |s| && p(s[k]) :: f(s[k])
  }

  lemma ImageSnoc<A, B>(s: seq<A>, p: A -> bool, f: A -> B)
    requires s != []
    ensures Image(s, p, f) == Image(s[..|s| - 1], p, f) + (if p(s[|s| - 1]) then {f(s[|s| - 1])} else {})
  {
    var init := s[..|s| - 1];
    forall y | y in Image(s, p, f)
      ensures y in Image(init, p, f) || (p(s[|s| - 1]) && y == f(s[|s| - 1]))
    {
      var k :| 0 <= k < |s| && p(s[k]) && y == f(s[k]);
      if k < |init| { assert s[k] == init[k]; }
    }
    forall y | y in Image(init, p, f) ensures y in Image(s, p, f) {
      var k :| 0 <= k < |init| && p(init[k]) && y == f(init[k]);
      assert init[k] == s[k];
    }
  }

  /** Filtering mapped items is mapping the items whose image passes. */
  lemma {:induction false} FilterMap<A, B>(s: seq<A>, f: A -> B, p: B -> bool, q: A -> bool)
    requires forall x :: q(x) == p(f(x))
    ensures Filter(Map(s, f), p) == Map(Filter(s, q), f)
  {
    if s != [] {
      assert Map(s, f)[1..] == Map(s[1..], f);
      FilterMap(s[1..], f, p, q);
    }
  }

  lemma {:induction false} FilterAll<T>(s: seq<T>, p: T -> bool)
    requires forall k :: 0 <= k < |s| ==> p(s[k])
    ensures Filter(s, p) == s
  {
    if s != [] {
      FilterAll(s[1..], p);
    }
  }

  /** A list without repeats has as many items as its set. */
  lemma {:induction false} DistinctCard<T>(s: seq<T>)
    requires Distinct(s)
    ensures |Elems(s)| == |s|
  {
    if s != [] {
      var init := s[..|s| - 1];
      DistinctCard(init);
      assert s[|s| - 1] !in Elems(init);
      assert Elems(s) == Elems(init) + {s[|s| - 1]};
    }
  }

  /** Filters with the same verdicts give the same list. */
  lemma {:induction false} FilterSame<T>(s: seq<T>, p: T -> bool, q: T -> bool)
    requires forall k :: 0 <= k < |s| ==> p(s[k]) == q(s[k])
    ensures Filter(s, p) == Filter(s, q)
  {
    if s != [] {
      FilterSame(s[1..], p, q);
    }
  }

  /** Maps with the same images give the same list. */
  lemma MapSame<A, B>(s: seq<A>, f: A -> B, g: A -> B)
    requires forall k :: 0 <= k < |s| ==> f(s[k]) == g(s[k])
    ensures Map(s, f) == Map(s, g)
  {
  }

  lemma SplitAt<T>(s: seq<T>, n: nat)
    requires n <= |s|
    ensures s == s[..n] + s[n..]
  {
  }

  lemma Snoc<T>(s: seq<T>)
    requires s != []
    ensures s == s[..|s| - 1] + [s[|s| - 1]]
  {
  }

  lemma SliceOfSuffix<T>(s: seq<T>, e: nat, a: nat, b: nat)
    requires e <= |s| && a <= b <= |s| - e
    ensures s[e..][a..b] == s[e + a..e + b]
  {
  }

  lemma SliceFromZero<T>(s: seq<T>, n: nat)
    requires n <= |s|
    ensures s[0..n] == s[..n]
  {
  }

  lemma ElemsAppend<T>(s: seq<T>, x: T)
    ensures Elems(s + [x]) == Elems(s) + {x}
  {
  }

  /** The prefix as long as the whole sequence is the sequence. */
  lemma TakeAll<T>(s: seq<T>)
    ensures s[..|s|] == s
  {
  }

  /** Moving one more item of `docs` into the buffer keeps the stored part
      and the buffer together equal to `before` and the items so far. */
  lemma PushOne<T>(c: seq<T>, b: seq<T>, before: seq<T>, docs: seq<T>, i: nat)
    requires i < |docs| && c + b == before + docs[..i]
    ensures c + (b + [docs[i]]) == before + docs[..i + 1]
    ensures (c + (b + [docs[i]])) + [] == before + docs[..i + 1]
  {
    assert docs[..i + 1] == docs[..i] + [docs[i]];
    AppendAssoc(c, b, [docs[i]]);
    AppendAssoc(before, docs[..i], [docs[i]]);
    assert (c + (b + [docs[i]])) + [] == c + (b + [docs[i]]);
  }

  lemma AppendAssoc<T>(a: seq<T>, b: seq<T>, c: seq<T>)
    ensures a + (b + c) == (a + b) + c
  {
  }

  /** The map after each key of `cmds` was given the value at the same
      position of `ds`, in order. */
  function Assigned<K, V>(ix: map<K, V>, cmds: seq<K>, ds: seq<V>): map<K, V>
    requires |cmds| == |ds|
    decreases |cmds|
  {
    if cmds == [] then ix
    else Assigned(ix, cmds[..|cmds| - 1], ds[..|ds| - 1])[cmds[|cmds| - 1] := ds[|ds| - 1]]
  }

  /** Assigning values that agree on repeated keys: every key of `cmds`
      holds its value and every other entry is kept. */
  lemma {:induction false} AssignedEntries<K, V>(ix: map<K, V>, cmds: seq<K>, ds: seq<V>)
    requires |cmds| == |ds|
    requires forall j, k :: 0 <= j < |cmds| && 0 <= k < |cmds| && cmds[j] == cmds[k] ==> ds[j] == ds[k]
    ensures var r := Assigned(ix, cmds, ds);
      r.Keys == ix.Keys + Elems(cmds)
      && (forall k :: 0 <= k < |cmds| ==> r[cmds[k]] == ds[k])
      && (forall c :: c in ix && c !in cmds ==> r[c] == ix[c])
    decreases |cmds|
  {
    if cmds != [] {
      var ci, di, c := cmds[..|cmds| - 1], ds[..|ds| - 1], cmds[|cmds| - 1];
      assert forall k :: 0 <= k < |ci| ==> ci[k] == cmds[k] && di[k] == ds[k];
      AssignedEntries(ix, ci, di);
      assert cmds == ci + [c];
      ElemsAppend(ci, c);
      var r := Assigned(ix, cmds, ds);
      forall k | 0 <= k < |cmds|
        ensures r[cmds[k]] == ds[k]
      {
        if k < |ci| && cmds[k] != c {
          assert ci[k] == cmds[k] && di[k] == ds[k];
        }
      }
    }
  }
}
