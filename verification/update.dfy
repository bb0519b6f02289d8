/** Diffs and the merge behind `update` (src/update.ts) and the `PartialDiff`
    shape (src/store.ts).

    The merge itself is performed by the `immupdate` library, whose code is
    not part of this model: `Merge` below is the behaviour this model
    ASSUMES of it, following the `PartialDiff` type (each key of a diff holds
    a literal value, a `ValueUpdater` function, or a nested diff). */
module Diffs {
  import opened Results

  /** A JSON-like JavaScript value.  States are plain objects. */
  datatype Value =
    | Undefined
    | Null
    | Bool(b: bool)
    | Num(n: int)
    | Str(s: string)
    | Arr(items: seq<Value>)
    | Obj(fields: map<string, Value>)

  /** A state: the own keys of a plain object and their values. */
  type State = map<string, Value>

  /** A value that is not a plain object.  An object literal in a diff is
      merged into the current object, so it is a nested diff, never a
      wholesale replacement. */
  type Scalar = v: Value | !v.Obj? witness Undefined

  /** What a key of a `PartialDiff` holds. */
  datatype Entry =
    | Replace(value: Scalar)            // `T[P]`: a literal new value
    | Transform(f: Value -> Value)      // `ValueUpdater<T[P]>`: applied to the current value
    | Nested(diff: PartialDiff)         // `Diff<T[P]>`: merged into the current object

  /** `PartialDiff<T>`: some of the keys of `T`, each with its entry. */
  datatype PartialDiff = PartialDiff(entries: map<string, Entry>)

  /** The argument of `update`/`updateWith`: the types promise a diff, but at
      run time a function can be passed instead, and is refused. */
  datatype DiffArgument = Structural(diff: PartialDiff) | Callable

  datatype UpdateError = InvalidDiff(message: string)

  const FunctionDiffMessage: string :=
    "sparix: update() and updateWith() do not accept functions as parameters"

  /** `current[k]`, `undefined` for a missing key. */
  function Get(s: State, k: string): Value
  {
    if k in s then s[k] else Undefined
  }

  /** The fields of the current value at a nested key: a nested diff is
      merged into an object, and into an empty one when there is none. */
  function FieldsOf(v: Value): State
  {
    if v.Obj? then v.fields else map[]
  }

  /** The merge assumed of `immupdate(current, diff)`: every key of `diff`
      gets its entry's value, every other key of `current` keeps its value. */
  function Merge(current: State, d: PartialDiff): (r: State)
    decreases d
    ensures r.Keys == current.Keys + d.entries.Keys
    ensures forall k :: k in current && k !in d.entries ==> r[k] == current[k]
  {
    map k | k in current.Keys + d.entries.Keys ::
      if k in d.entries then Apply(current, k, d.entries[k]) else current[k]
  }

  /** The new value of key `k` under entry `e`. */
  function Apply(current: State, k: string, e: Entry): Value
    decreases e
  {
    match e
    case Replace(v) => v
    case Transform(f) => f(Get(current, k))
    case Nested(sub) => Obj(Merge(FieldsOf(Get(current, k)), sub))
  }

  /** `checkDiffIsObject` then `immupdate`: a function passed as the whole
      diff is an error and nothing is merged; any structural diff is merged. */
  function Update(current: State, d: DiffArgument): (r: Result<State, UpdateError>)
    ensures d.Callable? <==> r.Failure?
    ensures r.Failure? ==> r.error == InvalidDiff(FunctionDiffMessage)
    ensures d.Structural? ==> r == Success(Merge(current, d.diff))
  {
    match d
    case Callable => Failure(InvalidDiff(FunctionDiffMessage))
    case Structural(diff) => Success(Merge(current, diff))
  }

  /** `updateWith(d)`: the curried form.  Building it never fails, whatever
      `d` is; the check happens each time the result is applied. */
  function UpdateWith(d: DiffArgument): (u: State -> Result<State, UpdateError>)
    ensures forall v :: u(v) == Update(v, d)
  {
    v => Update(v, d)
  }

  /** A literal value used as a diff, as `resetState` does with the initial
      state: plain objects become nested diffs, anything else is replaced
      wholesale. */
  function LiteralDiff(t: State): (d: PartialDiff)
    decreases Obj(t), 0
    ensures d.entries.Keys == t.Keys
  {
    PartialDiff(map k | k in t :: LiteralEntry(t[k]))
  }

  function LiteralEntry(v: Value): Entry
    decreases v, 1
  {
    if v.Obj? then Nested(LiteralDiff(v.fields)) else Replace(v)
  }

  /** Every key of `s`, at every depth where `t` has an object, is also a
      key of `t`: merging `t` as a literal then leaves no stale key behind. */
  ghost predicate Within(s: State, t: State)
    decreases Obj(t)
  {
    && s.Keys <= t.Keys
    && forall k :: k in t && t[k].Obj? ==> Within(FieldsOf(Get(s, k)), t[k].fields)
  }

  /** A literal diff sets every one of its keys to its own value. */
  lemma {:induction false} LiteralEntryApplies(s: State, k: string, v: Value)
    requires v.Obj? ==> Within(FieldsOf(Get(s, k)), v.fields)
    ensures Apply(s, k, LiteralEntry(v)) == v
    decreases v, 1
  {
    if v.Obj? {
      MergeLiteral(FieldsOf(Get(s, k)), v.fields);
    }
  }

  /** Merging the literal `t` into a state whose keys it covers yields `t`:
      this is how `resetState` brings the initial state back. */
  lemma {:induction false} MergeLiteral(s: State, t: State)
    requires Within(s, t)
    ensures Merge(s, LiteralDiff(t)) == t
    decreases Obj(t), 0
  {
    var r := Merge(s, LiteralDiff(t));
    forall k | k in t
      ensures r[k] == t[k]
    {
      assert LiteralDiff(t).entries[k] == LiteralEntry(t[k]);
      LiteralEntryApplies(s, k, t[k]);
    }
  }

  /** Every state is within itself, so re-applying a state as a literal diff
      changes nothing. */
  lemma {:induction false} WithinItself(t: State)
    ensures Within(t, t)
    decreases Obj(t)
  {
    forall k | k in t && t[k].Obj?
      ensures Within(FieldsOf(Get(t, k)), t[k].fields)
    {
      WithinItself(t[k].fields);
    }
  }

  /** `merge(s, {})` is `s`. */
  lemma MergeEmpty(s: State)
    ensures Merge(s, PartialDiff(map[])) == s
  {
  }

  /** No key is stale in a missing object: a literal merged where there is
      no object yet is built afresh. */
  lemma {:induction false} WithinEmpty(t: State)
    ensures Within(map[], t)
    decreases Obj(t)
  {
    forall k | k in t && t[k].Obj?
      ensures Within(FieldsOf(Get(map[], k)), t[k].fields)
    {
      WithinEmpty(t[k].fields);
    }
  }

  /** A diff whose keys are all new and all literal (object literals
      included) adds exactly those keys and keeps every original key with
      its value. */
  lemma MergeDisjointLiterals(s: State, values: State)
    requires s.Keys !! values.Keys
    ensures Merge(s, LiteralDiff(values)) == s + values
  {
    var r := Merge(s, LiteralDiff(values));
    forall k | k in values
      ensures r[k] == values[k]
    {
      assert LiteralDiff(values).entries[k] == LiteralEntry(values[k]);
      WithinEmpty(FieldsOf(values[k]));
      LiteralEntryApplies(s, k, values[k]);
    }
  }

  /** A literal that is not a plain object, at a top-level key, becomes that
      key's value, whether or not the key was there; nothing else changes. */
  lemma MergeReplace(s: State, k: string, v: Scalar)
    ensures Merge(s, PartialDiff(map[k := Replace(v)])) == s[k := v]
  {
  }

  /** A nested diff `{k: {sub: v}}` on an object at `k` changes only
      `s.k.sub`: the other fields of `s.k` and the other keys of `s` keep
      their values. */
  lemma MergeNestedField(s: State, k: string, sub: string, v: Scalar)
    requires k in s && s[k].Obj?
    ensures Merge(s, PartialDiff(map[k := Nested(PartialDiff(map[sub := Replace(v)]))]))
            == s[k := Obj(s[k].fields[sub := v])]
  {
    var inner := PartialDiff(map[sub := Replace(v)]);
    assert Merge(s[k].fields, inner) == s[k].fields[sub := v];
  }

  /** A transform is applied to the current value of its key, `undefined`
      when the key is missing. */
  lemma MergeTransform(s: State, k: string, f: Value -> Value)
    ensures Merge(s, PartialDiff(map[k := Transform(f)])) == s[k := f(Get(s, k))]
  {
  }
}
