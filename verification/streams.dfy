/** The derived streams of a store (src/store.ts), as the sequences of values a
    subscriber receives, given the sequence `h` of values the stream they are
    built on emitted.  `distinctUntilChanged` compares each value with the
    last value it let through. */
module Streams {
  import opened Diffs

  function Last<T>(h: seq<T>): T
    requires h != []
  {
    h[|h| - 1]
  }

  /** `distinctUntilChanged()`: a value is let through when it differs from
      the last value let through. */
  function Distinct<T(==)>(h: seq<T>): (r: seq<T>)
    ensures |r| <= |h|
    ensures h == [] <==> r == []
  {
    if h == [] then []
    else
      var kept := Distinct(h[..|h| - 1]);
      if kept != [] && Last(kept) == Last(h) then kept else kept + [Last(h)]
  }

  /** Nothing is let through twice in a row. */
  lemma {:induction false} DistinctNoRepeats<T>(h: seq<T>)
    ensures forall i :: 0 < i < |Distinct(h)| ==> Distinct(h)[i - 1] != Distinct(h)[i]
  {
    if h != [] {
      var kept := Distinct(h[..|h| - 1]);
      DistinctNoRepeats(h[..|h| - 1]);
      if !(kept != [] && Last(kept) == Last(h)) {
        var r := kept + [Last(h)];
        assert Distinct(h) == r;
        forall i | 0 < i < |r|
          ensures r[i - 1] != r[i]
        {
          if i < |kept| {
            assert r[i - 1] == kept[i - 1] && r[i] == kept[i];
          } else {
            assert r[i - 1] == Last(kept) && r[i] == Last(h);
          }
        }
      }
    }
  }

  /** The first value always gets through, and the last value let through is
      the last value emitted. */
  lemma {:induction false} DistinctEnds<T>(h: seq<T>)
    requires h != []
    ensures Distinct(h)[0] == h[0]
    ensures Last(Distinct(h)) == Last(h)
  {
    if |h| > 1 {
      DistinctEnds(h[..|h| - 1]);
    }
  }

  /** A new value produces a notification exactly when it differs from the
      previous one: an equal value is suppressed, a different one is never
      skipped. */
  lemma DistinctStep<T>(h: seq<T>, x: T)
    requires h != []
    ensures Distinct(h + [x]) == Distinct(h) <==> x == Last(h)
    ensures x != Last(h) ==> Distinct(h + [x]) == Distinct(h) + [x]
  {
    assert (h + [x])[..|h|] == h;
    DistinctEnds(h);
  }

  /** Everything let through was emitted. */
  lemma {:induction false} DistinctOnlyEmitted<T>(h: seq<T>, i: nat)
    requires i < |Distinct(h)|
    ensures exists j :: 0 <= j < |h| && h[j] == Distinct(h)[i]
  {
    var prefix := h[..|h| - 1];
    var kept := Distinct(prefix);
    if i < |kept| {
      DistinctOnlyEmitted(prefix, i);
      var j :| 0 <= j < |prefix| && prefix[j] == kept[i];
      assert h[j] == Distinct(h)[i];
    } else {
      assert h[|h| - 1] == Distinct(h)[i];
    }
  }

  function MapSeq<T, R>(f: T -> R, h: seq<T>): (r: seq<R>)
    ensures |r| == |h| && forall i :: 0 <= i < |h| ==> r[i] == f(h[i])
  {
    if h == [] then [] else MapSeq(f, h[..|h| - 1]) + [f(Last(h))]
  }

  function FilterSeq<T>(p: T -> bool, h: seq<T>): (r: seq<T>)
    ensures forall x :: x in r ==> x in h && p(x)
  {
    if h == [] then []
    else if p(Last(h)) then FilterSeq(p, h[..|h| - 1]) + [Last(h)]
    else FilterSeq(p, h[..|h| - 1])
  }

  /** `map(project)`: `state$.map(project).distinctUntilChanged()`. */
  function MapStream<T(==), R(==)>(project: T -> R, h: seq<T>): seq<R>
  {
    Distinct(MapSeq(project, Distinct(h)))
  }

  /** Suppressing repeated states before projecting makes no difference:
      a subscriber of `map(project)` receives exactly the distinct runs of
      the projected values. */
  lemma {:induction false} MapStreamFuses<T, R>(project: T -> R, h: seq<T>)
    ensures MapStream(project, h) == Distinct(MapSeq(project, h))
  {
    if h != [] {
      var prefix := h[..|h| - 1];
      var kept := Distinct(prefix);
      var x := project(Last(h));
      MapStreamFuses(project, prefix);
      assert MapSeq(project, h) == MapSeq(project, prefix) + [x];
      if kept != [] && Last(kept) == Last(h) {
        assert Distinct(h) == kept;
        DistinctEnds(prefix);
        DistinctStep(MapSeq(project, prefix), x);
      } else {
        assert Distinct(h) == kept + [Last(h)];
        assert MapSeq(project, kept + [Last(h)]) == MapSeq(project, kept) + [x];
        DistinctAppend(MapSeq(project, kept), MapSeq(project, prefix), x);
      }
    }
  }

  /** Histories with the same notifications keep them equal when one more
      value is emitted. */
  lemma DistinctAppend<T>(a: seq<T>, b: seq<T>, x: T)
    requires Distinct(a) == Distinct(b)
    ensures Distinct(a + [x]) == Distinct(b + [x])
  {
    assert (a + [x])[..|a|] == a;
    assert (b + [x])[..|b|] == b;
  }

  /** `select(key)`: `map(state => state[key])`. */
  function Select(key: string, h: seq<State>): seq<Value>
  {
    MapStream((s: State) => Get(s, key), h)
  }

  /** `select(key)` notifies a new state's value at `key` exactly when it
      differs from the previous state's value there. */
  lemma SelectNotifies(key: string, h: seq<State>, s: State)
    requires h != []
    ensures Select(key, h + [s]) ==
              if Get(s, key) == Get(Last(h), key) then Select(key, h)
              else Select(key, h) + [Get(s, key)]
  {
    var project := (x: State) => Get(x, key);
    MapStreamFuses(project, h);
    MapStreamFuses(project, h + [s]);
    assert MapSeq(project, h + [s]) == MapSeq(project, h) + [project(s)];
    DistinctStep(MapSeq(project, h), project(s));
  }

  /** `filter(predicate)`: `state$.filter(predicate).distinctUntilChanged()`. */
  function FilterStream<T(==)>(keep: T -> bool, h: seq<T>): (r: seq<T>)
    ensures forall x :: x in r ==> keep(x)
  {
    var r := Distinct(FilterSeq(keep, Distinct(h)));
    assert forall x :: x in r ==> x in FilterSeq(keep, Distinct(h)) by {
      forall x | x in r
        ensures x in FilterSeq(keep, Distinct(h))
      {
        var i :| 0 <= i < |r| && r[i] == x;
        DistinctOnlyEmitted(FilterSeq(keep, Distinct(h)), i);
      }
    }
    r
  }

  /** A new value reaches a `filter(predicate)` subscriber exactly when it
      satisfies the predicate, differs from the previous value (else
      `state$` suppresses it) and differs from the last value the
      subscriber received. */
  lemma FilterNotifies<T>(keep: T -> bool, h: seq<T>, s: T)
    requires h != []
    ensures var f := FilterStream(keep, h);
            FilterStream(keep, h + [s]) ==
              if keep(s) && s != Last(h) && (f == [] || Last(f) != s) then f + [s] else f
  {
    var d := Distinct(h);
    var kept := FilterSeq(keep, d);
    DistinctStep(h, s);
    if s != Last(h) {
      assert Distinct(h + [s]) == d + [s];
      assert (d + [s])[..|d|] == d;
      if keep(s) {
        assert FilterSeq(keep, d + [s]) == kept + [s];
        if kept != [] {
          DistinctEnds(kept);
          DistinctStep(kept, s);
        }
      } else {
        assert FilterSeq(keep, d + [s]) == kept;
      }
    }
  }

  /** The object `pick` builds: exactly the listed keys, each with the
      state's value (`undefined` for a missing one). */
  function PickFields(keys: seq<string>, s: State): (r: State)
    ensures r.Keys == set k | k in keys
    ensures forall k :: k in r ==> r[k] == Get(s, k)
  {
    map k | k in keys :: Get(s, k)
  }

  /** Field-wise comparison of two picked objects: same keys, equal values.
      JavaScript compares the values by reference; values here have no
      identity, so equal values stand for the same reference. */
  predicate ShallowEqual(a: State, b: State)
  {
    a.Keys == b.Keys && forall k :: k in a ==> a[k] == b[k]
  }

  lemma ShallowEqualIsEquality(a: State, b: State)
    ensures ShallowEqual(a, b) <==> a == b
  {
  }

  /** `distinctUntilChanged(shallowEqual)`. */
  function DistinctShallow(h: seq<State>): seq<State>
  {
    if h == [] then []
    else
      var kept := DistinctShallow(h[..|h| - 1]);
      if kept != [] && ShallowEqual(Last(kept), Last(h)) then kept else kept + [Last(h)]
  }

  lemma {:induction false} DistinctShallowIsDistinct(h: seq<State>)
    ensures DistinctShallow(h) == Distinct(h)
  {
    if h != [] {
      DistinctShallowIsDistinct(h[..|h| - 1]);
      if Distinct(h[..|h| - 1]) != [] {
        ShallowEqualIsEquality(Last(Distinct(h[..|h| - 1])), Last(h));
      }
    }
  }

  /** `pick(...keys)`: `map(state => partial)` then
      `distinctUntilChanged(shallowEqual)`. */
  function Pick(keys: seq<string>, h: seq<State>): seq<State>
  {
    DistinctShallow(MapStream((s: State) => PickFields(keys, s), h))
  }

  /** `pick(...keys)` notifies a new state's picked object exactly when it
      differs from the previous state's picked object. */
  lemma PickNotifies(keys: seq<string>, h: seq<State>, s: State)
    requires h != []
    ensures Pick(keys, h + [s]) ==
              if PickFields(keys, s) == PickFields(keys, Last(h)) then Pick(keys, h)
              else Pick(keys, h) + [PickFields(keys, s)]
  {
    var project := (x: State) => PickFields(keys, x);
    MapStreamFuses(project, h);
    MapStreamFuses(project, h + [s]);
    assert MapSeq(project, h + [s]) == MapSeq(project, h) + [project(s)];
    DistinctStep(MapSeq(project, h), project(s));
    DistinctShallowIsDistinct(MapStream(project, h));
    DistinctShallowIsDistinct(MapStream(project, h + [s]));
  }

  /** A new state that agrees with the previous one on the picked keys
      produces no `pick` notification, whatever it changed elsewhere. */
  lemma PickIgnoresOtherKeys(keys: seq<string>, h: seq<State>, s: State)
    requires h != []
    requires forall k :: k in keys ==> Get(s, k) == Get(Last(h), k)
    ensures Pick(keys, h + [s]) == Pick(keys, h)
  {
    PickNotifies(keys, h, s);
    assert PickFields(keys, s) == PickFields(keys, Last(h));
  }
}
