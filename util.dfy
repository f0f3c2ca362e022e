/** Object and list utilities. A plain object is an ordered list of
    key/value entries (the order `Object.keys` reports); a well-formed
    object has no key twice. */
module Util {
  import opened Wrappers

  type Key = string

  datatype Obj<V> = Obj(entries: seq<(Key, V)>)

  /** No entry of `es` has key `k`. */
  ghost predicate Absent<V>(k: Key, es: seq<(Key, V)>) {
    forall i :: 0 <= i < |es| ==> es[i].0 != k
  }

  /** No key occurs twice among the entries. */
  ghost predicate Distinct<V>(es: seq<(Key, V)>) {
    forall i, j :: 0 <= i < j < |es| ==> es[i].0 != es[j].0
  }

  /** No key of `a` occurs in `b`. */
  ghost predicate Apart<V>(a: seq<(Key, V)>, b: seq<(Key, V)>) {
    forall i :: 0 <= i < |a| ==> Absent(a[i].0, b)
  }

  /** An object never holds the same key twice. */
  ghost predicate Wf<V>(o: Obj<V>) {
    Distinct(o.entries)
  }

  /** Dropping the first entry keeps keys distinct, and the first key
      occurs nowhere after it. */
  lemma DistinctTail<V>(es: seq<(Key, V)>)
    requires es != [] && Distinct(es)
    ensures Distinct(es[1..]) && Absent(es[0].0, es[1..])
  {
    forall i | 0 <= i < |es[1..]|
      ensures es[1..][i].0 != es[0].0
    {
      assert es[1..][i] == es[i + 1];
    }
    forall i, j | 0 <= i < j < |es[1..]|
      ensures es[1..][i].0 != es[1..][j].0
    {
      assert es[1..][i] == es[i + 1] && es[1..][j] == es[j + 1];
    }
  }

  /** A key absent from `es` is absent from its tail. */
  lemma AbsentTail<V>(k: Key, es: seq<(Key, V)>)
    requires es != [] && Absent(k, es)
    ensures Absent(k, es[1..])
  {
    forall i | 0 <= i < |es[1..]|
      ensures es[1..][i].0 != k
    {
      assert es[1..][i] == es[i + 1];
    }
  }

  /** Putting an entry with a new key in front keeps keys distinct. */
  lemma DistinctCons<V>(e: (Key, V), es: seq<(Key, V)>)
    requires Distinct(es) && Absent(e.0, es)
    ensures Distinct([e] + es)
  {
    forall i, j | 0 <= i < j < |[e] + es|
      ensures ([e] + es)[i].0 != ([e] + es)[j].0
    {
      assert ([e] + es)[j] == es[j - 1];
      if i > 0 {
        assert ([e] + es)[i] == es[i - 1];
      }
    }
  }

  /** Appending an entry with a new key keeps keys distinct. */
  lemma DistinctSnoc<V>(es: seq<(Key, V)>, e: (Key, V))
    requires Distinct(es) && Absent(e.0, es)
    ensures Distinct(es + [e])
  {
    forall i, j | 0 <= i < j < |es + [e]|
      ensures (es + [e])[i].0 != (es + [e])[j].0
    {
      assert (es + [e])[i] == es[i];
    }
  }

  /** `o[k]`: the value stored under `k`, if any. */
  function Get<V>(o: Obj<V>, k: Key): (r: Option<V>)
    ensures r.None? <==> Absent(k, o.entries)
    decreases |o.entries|
  {
    if o.entries == [] then None
    else if o.entries[0].0 == k then Some(o.entries[0].1)
    else
      var r := Get(Obj(o.entries[1..]), k);
      assert r.None? ==> forall i :: 0 < i < |o.entries| ==> o.entries[1..][i - 1] == o.entries[i];
      r
  }

  /** `o[k] = v`: overwrites the value in place when `k` is present,
      otherwise adds `k` at the end. */
  function Put<V>(o: Obj<V>, k: Key, v: V): (r: Obj<V>)
    ensures |r.entries| == |o.entries| + (if Absent(k, o.entries) then 1 else 0)
    decreases |o.entries|
  {
    if o.entries == [] then Obj([(k, v)])
    else if o.entries[0].0 == k then Obj([(k, v)] + o.entries[1..])
    else
      assert Absent(k, o.entries) <==> Absent(k, o.entries[1..]) by {
        if Absent(k, o.entries) { AbsentTail(k, o.entries); }
        if Absent(k, o.entries[1..]) {
          forall i | 1 <= i < |o.entries| ensures o.entries[i].0 != k {
            assert o.entries[i] == o.entries[1..][i - 1];
          }
        }
      }
      Obj([o.entries[0]] + Put(Obj(o.entries[1..]), k, v).entries)
  }

  /** Reading after writing: the new value under `k`, the old ones
      elsewhere. */
  lemma {:induction false} PutGet<V>(o: Obj<V>, k: Key, v: V, j: Key)
    ensures Get(Put(o, k, v), j) == if j == k then Some(v) else Get(o, j)
    decreases |o.entries|
  {
    if o.entries == [] {
    } else if o.entries[0].0 == k {
      assert Put(o, k, v).entries[1..] == o.entries[1..];
    } else {
      var rest := Put(Obj(o.entries[1..]), k, v);
      assert Put(o, k, v).entries[1..] == rest.entries;
      PutGet(Obj(o.entries[1..]), k, v, j);
    }
  }

  /** `Object.assign(target, src)`: the entries of `src` written into
      `target` one after the other. */
  function Assign<V>(target: Obj<V>, src: Obj<V>): Obj<V>
    decreases |src.entries|
  {
    if src.entries == [] then target
    else Assign(Put(target, src.entries[0].0, src.entries[0].1), Obj(src.entries[1..]))
  }

  /** After `Object.assign`, a key of `src` reads as in `src`, any other
      key as in `target`. */
  lemma {:induction false} AssignGet<V>(target: Obj<V>, src: Obj<V>, j: Key)
    requires Wf(src)
    ensures Get(Assign(target, src), j) == if Get(src, j).Some? then Get(src, j) else Get(target, j)
    decreases |src.entries|
  {
    if src.entries != [] {
      var rest := Obj(src.entries[1..]);
      var (k, v) := src.entries[0];
      DistinctTail(src.entries);
      AssignGet(Put(target, k, v), rest, j);
      PutGet(target, k, v, j);
    }
  }

  /** `merge`: `Object.assign({}, o1, o2)`, a new object; the inputs are
      values and stay as they are. */
  function Merge<V>(o1: Obj<V>, o2: Obj<V>): Obj<V> {
    Assign(Assign(Obj([]), o1), o2)
  }

  /** In a merge, keys of `o2` override those of `o1`; every other key of
      `o1` keeps its value, and no other key appears. */
  lemma MergeGet<V>(o1: Obj<V>, o2: Obj<V>, j: Key)
    requires Wf(o1) && Wf(o2)
    ensures Get(Merge(o1, o2), j) == if Get(o2, j).Some? then Get(o2, j) else Get(o1, j)
  {
    AssignGet(Assign(Obj([]), o1), o2, j);
    AssignGet(Obj([]), o1, j);
  }

  /** What `fling` may be given: only a plain object literal is accepted. */
  datatype JsValue<V> = JsNull | JsUndefined | JsPlain(obj: Obj<V>) | JsOther

  /** The error `fling` throws. */
  datatype TypeError = TypeError(message: string)

  /** The reduce inside `fling`: every entry whose key is not `s` is merged
      into the accumulator, in key order. */
  function FlingFrom<V>(s: Key, es: seq<(Key, V)>, acc: Obj<V>): Obj<V>
    decreases |es|
  {
    if es == [] then acc
    else FlingFrom(s, es[1..], if es[0].0 == s then acc else Merge(acc, Obj([es[0]])))
  }

  /** `fling(s, o)`: a copy of `o` without key `s`; anything but a plain
      object is a TypeError. */
  function Fling<V>(s: Key, o: JsValue<V>): (r: Either<TypeError, Obj<V>>)
    ensures r.Left? <==> !o.JsPlain?
  {
    match o
    case JsPlain(obj) => Right(FlingFrom(s, obj.entries, Obj([])))
    case _ => Left(TypeError("fling(): only works with object literals!"))
  }

  /** The entries of `es` whose key is not `s`, in order. */
  function Without<V>(s: Key, es: seq<(Key, V)>): (r: seq<(Key, V)>)
    ensures Absent(s, r)
    ensures |r| <= |es|
  {
    if es == [] then []
    else
      var t := Without(s, es[1..]);
      if es[0].0 == s then t
      else
        assert forall i :: 0 < i < |[es[0]] + t| ==> ([es[0]] + t)[i] == t[i - 1];
        [es[0]] + t
  }

  /** `Without` on a list with a known first entry. */
  lemma WithoutCons<V>(s: Key, e: (Key, V), es: seq<(Key, V)>)
    ensures Without(s, [e] + es) == (if e.0 == s then [] else [e]) + Without(s, es)
  {
    assert ([e] + es)[1..] == es;
  }

  /** A key absent from `es` is absent from any filtering of it. */
  lemma {:induction false} AbsentWithout<V>(k: Key, s: Key, es: seq<(Key, V)>)
    requires Absent(k, es)
    ensures Absent(k, Without(s, es))
    decreases |es|
  {
    if es != [] {
      AbsentTail(k, es);
      AbsentWithout(k, s, es[1..]);
      var t := Without(s, es[1..]);
      forall i | 0 <= i < |[es[0]] + t| ensures ([es[0]] + t)[i].0 != k {
        if i > 0 { assert ([es[0]] + t)[i] == t[i - 1]; }
      }
    }
  }

  /** Writing a key that is absent appends it. */
  lemma {:induction false} PutAppends<V>(o: Obj<V>, k: Key, v: V)
    requires Absent(k, o.entries)
    ensures Put(o, k, v) == Obj(o.entries + [(k, v)])
    decreases |o.entries|
  {
    if o.entries != [] {
      AbsentTail(k, o.entries);
      PutAppends(Obj(o.entries[1..]), k, v);
      assert [o.entries[0]] + (o.entries[1..] + [(k, v)]) == o.entries + [(k, v)];
    }
  }

  /** Assigning distinct-keyed entries to a prefix with none of their keys
      appends them. */
  lemma {:induction false} AssignAppends<V>(pre: Obj<V>, es: seq<(Key, V)>)
    requires Distinct(es) && Apart(pre.entries, es)
    ensures Assign(pre, Obj(es)) == Obj(pre.entries + es)
    decreases |es|
  {
    if es != [] {
      DistinctTail(es);
      assert Absent(es[0].0, pre.entries);
      PutAppends(pre, es[0].0, es[0].1);
      var pre' := Obj(pre.entries + [es[0]]);
      forall i | 0 <= i < |pre'.entries|
        ensures Absent(pre'.entries[i].0, es[1..])
      {
        if i < |pre.entries| {
          assert pre'.entries[i] == pre.entries[i];
          AbsentTail(pre.entries[i].0, es);
        }
      }
      AssignAppends(pre', es[1..]);
      assert pre'.entries + es[1..] == pre.entries + es;
    }
  }

  /** Merging a one-entry object with a new key into a well-formed object
      appends the entry. */
  lemma MergeAppends<V>(acc: Obj<V>, e: (Key, V))
    requires Wf(acc) && Absent(e.0, acc.entries)
    ensures Merge(acc, Obj([e])) == Obj(acc.entries + [e])
  {
    AssignAppends(Obj([]), acc.entries);
    assert [] + acc.entries == acc.entries;
    assert Assign(Obj([]), acc) == acc;
    assert Obj([e]).entries[1..] == [];
    assert Assign(acc, Obj([e])) == Assign(Put(acc, e.0, e.1), Obj([]));
    PutAppends(acc, e.0, e.1);
  }

  /** Keys kept apart from a list stay apart from its tail. */
  lemma ApartTail<V>(a: seq<(Key, V)>, es: seq<(Key, V)>)
    requires es != [] && Apart(a, es)
    ensures Apart(a, es[1..])
  {
    forall i | 0 <= i < |a|
      ensures Absent(a[i].0, es[1..])
    {
      AbsentTail(a[i].0, es);
    }
  }

  /** Moving the first entry of a distinct-keyed list to the end of an
      accumulator kept apart from it keeps the two apart and distinct. */
  lemma ApartShift<V>(acc: seq<(Key, V)>, es: seq<(Key, V)>)
    requires es != [] && Distinct(es) && Distinct(acc) && Apart(acc, es)
    ensures Absent(es[0].0, acc)
    ensures Distinct(acc + [es[0]]) && Apart(acc + [es[0]], es[1..])
  {
    DistinctTail(es);
    ApartTail(acc, es);
    DistinctSnoc(acc, es[0]);
    var next := acc + [es[0]];
    forall i | 0 <= i < |next|
      ensures Absent(next[i].0, es[1..])
    {
      if i < |acc| {
        assert next[i] == acc[i];
      }
    }
  }

  /** For a well-formed object, the fold builds the entries without key
      `s`, in their original order. */
  lemma {:induction false} FlingFromFilters<V>(s: Key, es: seq<(Key, V)>, acc: Obj<V>)
    requires Distinct(es) && Distinct(acc.entries) && Apart(acc.entries, es)
    ensures FlingFrom(s, es, acc) == Obj(acc.entries + Without(s, es))
    decreases |es|
  {
    if es != [] {
      DistinctTail(es);
      if es[0].0 == s {
        ApartTail(acc.entries, es);
        FlingFromFilters(s, es[1..], acc);
        assert Without(s, es) == Without(s, es[1..]);
      } else {
        ApartShift(acc.entries, es);
        MergeAppends(acc, es[0]);
        FlingFromFilters(s, es[1..], Obj(acc.entries + [es[0]]));
        assert Without(s, es) == [es[0]] + Without(s, es[1..]);
        assert acc.entries + [es[0]] + Without(s, es[1..]) == acc.entries + Without(s, es);
      }
    }
  }

  /** Filtering keeps distinct keys distinct. */
  lemma {:induction false} WithoutDistinct<V>(s: Key, es: seq<(Key, V)>)
    requires Distinct(es)
    ensures Distinct(Without(s, es))
    decreases |es|
  {
    if es != [] {
      DistinctTail(es);
      WithoutDistinct(s, es[1..]);
      if es[0].0 != s {
        AbsentWithout(es[0].0, s, es[1..]);
        DistinctCons(es[0], Without(s, es[1..]));
      }
    }
  }

  /** Filtering twice by the same key is filtering once. */
  lemma {:induction false} WithoutTwice<V>(s: Key, es: seq<(Key, V)>)
    ensures Without(s, Without(s, es)) == Without(s, es)
    decreases |es|
  {
    if es != [] {
      WithoutTwice(s, es[1..]);
      if es[0].0 != s {
        WithoutCons(s, es[0], Without(s, es[1..]));
      }
    }
  }

  /** On a well-formed object, `fling` gives the entries without key `s`,
      in their original order, and `s` is gone. */
  lemma FlingRemovesOnlyKey<V>(s: Key, o: Obj<V>)
    requires Wf(o)
    ensures Fling(s, JsPlain(o)) == Right(Obj(Without(s, o.entries)))
    ensures Get(Fling(s, JsPlain(o)).right, s).None?
  {
    FlingFromFilters(s, o.entries, Obj([]));
    assert [] + Without(s, o.entries) == Without(s, o.entries);
  }

  /** Filtering keeps the values of the other keys. */
  lemma {:induction false} WithoutGet<V>(s: Key, es: seq<(Key, V)>, j: Key)
    requires j != s
    ensures Get(Obj(Without(s, es)), j) == Get(Obj(es), j)
    decreases |es|
  {
    if es != [] {
      WithoutGet(s, es[1..], j);
      if es[0].0 != s {
        assert ([es[0]] + Without(s, es[1..]))[1..] == Without(s, es[1..]);
      }
    }
  }

  /** `fling` on a well-formed object leaves every other key's value. */
  lemma FlingKeepsOthers<V>(s: Key, o: Obj<V>, j: Key)
    requires Wf(o) && j != s
    ensures Get(Fling(s, JsPlain(o)).right, j) == Get(o, j)
  {
    FlingRemovesOnlyKey(s, o);
    WithoutGet(s, o.entries, j);
  }

  /** `fling` is idempotent: flinging the same key twice is flinging it
      once. */
  lemma FlingIdempotent<V>(s: Key, o: Obj<V>)
    requires Wf(o)
    ensures Fling(s, JsPlain(Fling(s, JsPlain(o)).right)) == Fling(s, JsPlain(o))
  {
    FlingRemovesOnlyKey(s, o);
    var once := Obj(Without(s, o.entries));
    WithoutDistinct(s, o.entries);
    FlingRemovesOnlyKey(s, once);
    WithoutTwice(s, o.entries);
  }

  /** `head`: the item at index 0; an empty list has none. */
  function Head<T>(list: seq<T>): (r: Option<T>)
    ensures r.None? <==> list == []
    ensures r.Some? ==> r.value == list[0]
  {
    if list == [] then None else Some(list[0])
  }

  /** `tail`: the last item; an empty list has none. */
  function Tail<T>(list: seq<T>): (r: Option<T>)
    ensures r.None? <==> list == []
    ensures r.Some? ==> r.value == list[|list| - 1]
  {
    if list == [] then None else Some(list[|list| - 1])
  }

  /** The reduce of `oreduce`: `f(p, value, o)` over the entries, in key
      order, from `acc`. */
  function FoldValues<A, V>(es: seq<(Key, V)>, f: (A, V, Obj<V>) -> A, acc: A, o: Obj<V>): A
    decreases |es|
  {
    if es == [] then acc else FoldValues(es[1..], f, f(acc, es[0].1, o), o)
  }

  /** `oreduce(o, f, i)`. */
  function OReduce<A, V>(o: Obj<V>, f: (A, V, Obj<V>) -> A, i: A): A {
    FoldValues(o.entries, f, i, o)
  }

  /** The fold takes the entries from first to last: the last entry's value
      is combined last, with the fold of all before it. */
  lemma {:induction false} FoldValuesSnoc<A, V>(es: seq<(Key, V)>, e: (Key, V), f: (A, V, Obj<V>) -> A, acc: A, o: Obj<V>)
    ensures FoldValues(es + [e], f, acc, o) == f(FoldValues(es, f, acc, o), e.1, o)
    decreases |es|
  {
    if es != [] {
      assert (es + [e])[1..] == es[1..] + [e];
      FoldValuesSnoc(es[1..], e, f, f(acc, es[0].1, o), o);
    }
  }

  /** `oreduce` starts from `i`, and on a non-empty object combines the last
      value last, passing the whole object every time. */
  lemma OReduceOrder<A, V>(o: Obj<V>, f: (A, V, Obj<V>) -> A, i: A)
    ensures o.entries == [] ==> OReduce(o, f, i) == i
    ensures o.entries != [] ==>
              var n := |o.entries|;
              OReduce(o, f, i) == f(FoldValues(o.entries[..n - 1], f, i, o), o.entries[n - 1].1, o)
  {
    if o.entries != [] {
      var n := |o.entries|;
      assert o.entries == o.entries[..n - 1] + [o.entries[n - 1]];
      FoldValuesSnoc(o.entries[..n - 1], o.entries[n - 1], f, i, o);
    }
  }

  /** `pipe(f1, ..., fn)`: copies its arguments into an array, from the
      last down to the first. */
  method Pipe<T>(fs: seq<T -> T>) returns (args: array<T -> T>)
    ensures fresh(args) && args[..] == fs
  {
    var i := |fs|;
    args := new (T -> T)[|fs|](_ => (x: T) => x);
    while i > 0
      invariant 0 <= i <= |fs|
      invariant forall k :: i <= k < |fs| ==> args[k] == fs[k]
      decreases i
    {
      i := i - 1;
      args[i] := fs[i];
    }
  }

  /** The function `pipe` returns: `args.reduce((v, n) => n(v), x)`. */
  function ApplyAll<T>(fs: seq<T -> T>, x: T): T
    decreases |fs|
  {
    if fs == [] then x else ApplyAll(fs[1..], fs[0](x))
  }

  /** A piped function applies the first function first and the last one
      last. */
  lemma {:induction false} ApplyAllOrder<T>(fs: seq<T -> T>, g: T -> T, x: T)
    ensures ApplyAll([g] + fs, x) == ApplyAll(fs, g(x))
    ensures ApplyAll(fs + [g], x) == g(ApplyAll(fs, x))
    decreases |fs|
  {
    assert ([g] + fs)[1..] == fs;
    if fs != [] {
      assert (fs + [g])[1..] == fs[1..] + [g];
      ApplyAllOrder(fs[1..], g, fs[0](x));
    }
  }
}
