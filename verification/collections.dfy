/** Enumerations of maps (Go ranges over a map in any order) and what permuting a sequence leaves alone. */
module Collections {

  function FlatMap<S, T>(f: S -> seq<T>, xs: seq<S>): seq<T> {
    if xs == [] then [] else f(xs[0]) + FlatMap(f, xs[1..])
  }

  lemma {:induction false} FlatMapAppend<S, T>(f: S -> seq<T>, xs: seq<S>, ys: seq<S>)
    ensures FlatMap(f, xs + ys) == FlatMap(f, xs) + FlatMap(f, ys)
  {
    if xs == [] {
      assert xs + ys == ys;
    } else {
      assert (xs + ys)[1..] == xs[1..] + ys;
      FlatMapAppend(f, xs[1..], ys);
    }
  }

  /** Where the elements come from. */
  lemma {:induction false} FlatMapMember<S, T>(f: S -> seq<T>, xs: seq<S>, y: T)
    ensures y in FlatMap(f, xs) <==> exists x :: x in xs && y in f(x)
  {
    if xs != [] {
      FlatMapMember(f, xs[1..], y);
      assert xs == [xs[0]] + xs[1..];
      assert forall x :: x in xs <==> x == xs[0] || x in xs[1..];
    }
  }

  lemma {:induction false} FlatMapPicks<S, T>(f: S -> seq<T>, front: seq<S>, x: S, back: seq<S>)
    ensures multiset(FlatMap(f, front + [x] + back)) == multiset(f(x)) + multiset(FlatMap(f, front + back))
  {
    FlatMapAppend(f, front, back);
    FlatMapAppend(f, front + [x], back);
    FlatMapAppend(f, front, [x]);
    assert [x][1..] == [];
    assert FlatMap(f, [x]) == f(x);
  }

  /** A permutation of `xs` holds `xs[0]` somewhere, and the rest permutes the rest. */
  lemma {:induction false} PickFirst<S>(xs: seq<S>, ys: seq<S>) returns (front: seq<S>, back: seq<S>)
    requires xs != [] && multiset(xs) == multiset(ys)
    ensures ys == front + [xs[0]] + back && multiset(xs[1..]) == multiset(front + back)
  {
    assert xs[0] in multiset(ys);
    var i :| 0 <= i < |ys| && ys[i] == xs[0];
    front, back := ys[..i], ys[i + 1..];
    TakeOut(ys, i);
    TakeOut(xs, 0);
    assert xs[..0] + xs[1..] == xs[1..];
  }

  lemma TakeOut<S>(s: seq<S>, i: nat)
    requires i < |s|
    ensures s == s[..i] + [s[i]] + s[i + 1..]
    ensures multiset(s[..i] + s[i + 1..]) == multiset(s) - multiset{s[i]}
  {
    assert s == s[..i] + [s[i]] + s[i + 1..];
    assert multiset(s) == multiset(s[..i]) + multiset{s[i]} + multiset(s[i + 1..]);
  }

  /** Mapping and concatenating the same elements in another order permutes the result. */
  lemma {:induction false} FlatMapPermutes<S, T>(f: S -> seq<T>, xs: seq<S>, ys: seq<S>)
    requires multiset(xs) == multiset(ys)
    ensures multiset(FlatMap(f, xs)) == multiset(FlatMap(f, ys))
    decreases |xs|
  {
    if xs == [] {
      assert |ys| == |multiset(ys)| == |multiset(xs)| == 0;
    } else {
      var front, back := PickFirst(xs, ys);
      FlatMapPermutes(f, xs[1..], front + back);
      FlatMapPicks(f, front, xs[0], back);
      assert FlatMap(f, xs) == f(xs[0]) + FlatMap(f, xs[1..]);
    }
  }

  ghost predicate Distinct<T>(xs: seq<T>) {
    forall i, j | 0 <= i < j < |xs| :: xs[i] != xs[j]
  }

  lemma {:induction false} DistinctCount<T>(xs: seq<T>, x: T)
    requires Distinct(xs)
    ensures multiset(xs)[x] == if x in xs then 1 else 0
  {
    if xs != [] {
      assert xs == [xs[0]] + xs[1..];
      DistinctCount(xs[1..], x);
    }
  }

  /** `keys` lists every key of `m` exactly once. */
  ghost predicate Enumerates<V>(keys: seq<string>, m: map<string, V>) {
    Distinct(keys) && forall k :: k in keys <==> k in m
  }

  function Lookup<V>(m: map<string, V>, k: string): (vs: seq<V>)
    ensures k in m ==> vs == [m[k]]
  {
    if k in m then [m[k]] else []
  }

  function ValuesOf<V>(m: map<string, V>, keys: seq<string>): seq<V> {
    FlatMap(k => Lookup(m, k), keys)
  }

  /** Ranging over one more key. */
  lemma ValuesStep<V, T>(m: map<string, V>, keys: seq<string>, k: string, f: V -> seq<T>)
    requires k in m
    ensures FlatMap(f, ValuesOf(m, keys + [k])) == FlatMap(f, ValuesOf(m, keys)) + f(m[k])
  {
    FlatMapAppend(k => Lookup(m, k), keys, [k]);
    assert [k][1..] == [] && [m[k]][1..] == [];
    assert ValuesOf(m, [k]) == [m[k]];
    FlatMapAppend(f, ValuesOf(m, keys), [m[k]]);
  }

  lemma ValuesMember<V>(m: map<string, V>, keys: seq<string>, v: V)
    requires Enumerates(keys, m)
    ensures v in ValuesOf(m, keys) <==> exists k :: k in m && m[k] == v
  {
    FlatMapMember(k => Lookup(m, k), keys, v);
    if k :| k in m && m[k] == v {
      assert k in keys && v in Lookup(m, k);
    }
  }

  /** What a range over a map collects. */
  lemma RangeMember<V, T>(m: map<string, V>, keys: seq<string>, f: V -> seq<T>, y: T)
    requires Enumerates(keys, m)
    ensures y in FlatMap(f, ValuesOf(m, keys)) <==> exists k :: k in m && y in f(m[k])
  {
    FlatMapMember(f, ValuesOf(m, keys), y);
    if v :| v in ValuesOf(m, keys) && y in f(v) {
      ValuesMember(m, keys, v);
    }
    if k :| k in m && y in f(m[k]) {
      ValuesMember(m, keys, m[k]);
    }
  }

  lemma {:induction false} EnumerationExists<V>(m: map<string, V>) returns (keys: seq<string>)
    ensures Enumerates(keys, m)
    decreases |m|
  {
    if m == map[] {
      keys := [];
    } else {
      var k :| k in m;
      var rest := EnumerationExists(m - {k});
      keys := [k] + rest;
    }
  }

  /** Any two enumerations of one map list its values the same number of times each. */
  lemma EnumerationsPermute<V>(m: map<string, V>, a: seq<string>, b: seq<string>)
    requires Enumerates(a, m) && Enumerates(b, m)
    ensures multiset(ValuesOf(m, a)) == multiset(ValuesOf(m, b))
  {
    forall k ensures multiset(a)[k] == multiset(b)[k] {
      DistinctCount(a, k);
      DistinctCount(b, k);
    }
    FlatMapPermutes(k => Lookup(m, k), a, b);
  }

  /** The listed keys of `m` whose value the partial function `f` is defined on. */
  function Defined<V, T>(m: map<string, V>, keys: seq<string>, f: V -> seq<T>): set<string> {
    set k | k in keys && k in m && f(m[k]) != []
  }

  /** How many values of `m` the partial function `f` is defined on, counted along any enumeration. */
  lemma {:induction false} CountAlong<V, T>(m: map<string, V>, keys: seq<string>, f: V -> seq<T>)
    requires Distinct(keys)
    requires forall v :: |f(v)| <= 1
    ensures |FlatMap(f, ValuesOf(m, keys))| == |Defined(m, keys, f)|
  {
    if keys != [] {
      var k, rest := keys[0], keys[1..];
      CountAlong(m, rest, f);
      FlatMapAppend(f, Lookup(m, k), ValuesOf(m, rest));
      DefinedStep(m, keys, f);
    }
  }

  lemma DefinedStep<V, T>(m: map<string, V>, keys: seq<string>, f: V -> seq<T>)
    requires Distinct(keys) && keys != [] && forall v :: |f(v)| <= 1
    ensures |Defined(m, keys, f)| == |FlatMap(f, Lookup(m, keys[0]))| + |Defined(m, keys[1..], f)|
  {
    var k := keys[0];
    assert keys == [k] + keys[1..];
    var others := Defined(m, keys[1..], f);
    if k in m && f(m[k]) != [] {
      assert [m[k]][1..] == [];
      assert Defined(m, keys, f) == others + {k};
    } else {
      assert Defined(m, keys, f) == others;
      if k in m {
        assert [m[k]][1..] == [];
      }
    }
  }
}
