/**
 * Dotted-path access to a state tree (src/state.ts): the total lookup the
 * normaliser reads reports with (`get`), the public read `select`, and the
 * write `updateAtPath`.
 */
module Paths {
  import opened Wrappers
  import opened Numbers
  import opened JsValue
  import opened Text

  // ------------------------------------------------------------ path text

  /** `xs.filter(Boolean)` on strings: drops the empty ones. */
  function NonEmpty(xs: seq<string>): (r: seq<string>)
    ensures forall i :: 0 <= i < |r| ==> r[i] != [] && r[i] in xs
    ensures forall x :: x in xs && x != [] ==> x in r
  {
    if xs == [] then []
    else if xs[0] == [] then NonEmpty(xs[1..])
    else [xs[0]] + NonEmpty(xs[1..])
  }

  /** The keys of a dotted path: `path.split(".").filter(Boolean)`. */
  function PathKeys(path: string): (keys: seq<string>)
    ensures forall i :: 0 <= i < |keys| ==> keys[i] != [] && '.' !in keys[i]
  {
    NonEmpty(Split(path, '.'))
  }

  predicate PathKey(k: string) {
    k != [] && '.' !in k
  }

  lemma {:induction false} NonEmptyKeeps(xs: seq<string>)
    requires forall i :: 0 <= i < |xs| ==> xs[i] != []
    ensures NonEmpty(xs) == xs
    decreases |xs|
  {
    if xs != [] {
      NonEmptyKeeps(xs[1..]);
    }
  }

  /** `filter` keeps order: filtering a concatenation concatenates the filtered parts. */
  lemma {:induction false} NonEmptyAppend(xs: seq<string>, ys: seq<string>)
    ensures NonEmpty(xs + ys) == NonEmpty(xs) + NonEmpty(ys)
    decreases |xs|
  {
    if xs == [] {
      assert xs + ys == ys;
    } else {
      assert (xs + ys)[1..] == xs[1..] + ys;
      NonEmptyAppend(xs[1..], ys);
    }
  }

  /** A single key is kept exactly when it is not empty. */
  lemma NonEmptySingle(x: string)
    ensures NonEmpty([x]) == if x == [] then [] else [x]
  {
  }

  /**
   * Empty pieces of a dotted path (doubled, leading or trailing dots) are
   * dropped and the other keys kept in order: `PathKeys("a..b")` is
   * `["a", "b"]`.
   */
  lemma PathKeysDropsEmpty(pieces: seq<string>)
    requires pieces != [] && forall i :: 0 <= i < |pieces| ==> '.' !in pieces[i]
    ensures PathKeys(Join(pieces, '.')) == NonEmpty(pieces)
  {
    SplitJoin(pieces, '.');
  }

  lemma PathKeysDoubleDot()
    ensures PathKeys("a..b") == ["a", "b"]
  {
    PathKeysDropsEmpty(["a", "", "b"]);
    assert Join(["a", "", "b"], '.') == "a..b";
  }

  /** Dotted paths round-trip: non-empty, dot-free keys are read back from their joined path. */
  lemma PathKeysJoin(keys: seq<string>)
    requires keys != [] && forall i :: 0 <= i < |keys| ==> PathKey(keys[i])
    ensures PathKeys(Join(keys, '.')) == keys
  {
    SplitJoin(keys, '.');
    NonEmptyKeeps(keys);
  }

  /** A path made only of dots, or the empty path, has no keys. */
  lemma {:induction false} PathKeysOnlyDots(path: string)
    requires forall i :: 0 <= i < |path| ==> path[i] == '.'
    ensures PathKeys(path) == []
    decreases |path|
  {
    var k := IndexOf(path, '.');
    if k < |path| {
      assert k == 0;
      assert path[..0] == [];
      PathKeysOnlyDots(path[1..]);
      assert NonEmpty(Split(path, '.')) == NonEmpty(Split(path[1..], '.'));
    }
  }

  // ---------------------------------------------------------------- get

  /** `get(path)` inside the normaliser: stops with undefined at the first non-object before a key. */
  function Lookup(v: Value, keys: seq<string>): Value
    decreases |keys|
  {
    if keys == [] then v
    else if !IsObject(v) then Undefined
    else Lookup(Member(v, keys[0]), keys[1..])
  }

  /** The loop of `get`, walking `cur` one key at a time. */
  method Get(root: Value, keys: seq<string>) returns (r: Value)
    ensures r == Lookup(root, keys)
  {
    var cur := root;
    var i := 0;
    while i < |keys|
      invariant 0 <= i <= |keys|
      invariant Lookup(cur, keys[i..]) == Lookup(root, keys)
    {
      if !IsObject(cur) {
        return Undefined;
      }
      assert keys[i..][1..] == keys[i + 1..];
      cur := Member(cur, keys[i]);
      i := i + 1;
    }
    return cur;
  }

  /** Reading along `a` and then `b` is reading along `a + b`. */
  lemma {:induction false} LookupAppend(v: Value, a: seq<string>, b: seq<string>)
    ensures Lookup(v, a + b) == Lookup(Lookup(v, a), b)
    decreases |a|
  {
    if a == [] {
      assert a + b == b;
    } else if !IsObject(v) {
      if b != [] {
        assert Lookup(Undefined, b) == Undefined;
      }
    } else {
      assert (a + b)[1..] == a[1..] + b;
      LookupAppend(Member(v, a[0]), a[1..], b);
    }
  }

  /** A missing step anywhere makes the whole path absent rather than an error. */
  lemma LookupThroughNonObject(v: Value, k: string, rest: seq<string>)
    requires !IsObject(v)
    ensures Lookup(v, [k] + rest) == Undefined
  {
  }

  // -------------------------------------------------------------- select

  /** `select(state, path)` on the keys: stops with undefined only at null or undefined. */
  function Selected(v: Value, keys: seq<string>): Value
    decreases |keys|
  {
    if keys == [] then v
    else if IsNullish(v) then Undefined
    else Selected(Member(v, keys[0]), keys[1..])
  }

  method Select(state: Value, path: string) returns (r: Value)
    ensures r == Selected(state, PathKeys(path))
  {
    var keys := PathKeys(path);
    var cur := state;
    var i := 0;
    while i < |keys|
      invariant 0 <= i <= |keys|
      invariant Selected(cur, keys[i..]) == Selected(state, keys)
    {
      if IsNullish(cur) {
        return Undefined;
      }
      assert keys[i..][1..] == keys[i + 1..];
      cur := Member(cur, keys[i]);
      i := i + 1;
    }
    return cur;
  }

  /**
   * Where `get` finds something, `select` finds the same thing; they differ
   * only on paths through strings, numbers and booleans, which `get` refuses.
   */
  lemma {:induction false} LookupAgreesWithSelected(v: Value, keys: seq<string>)
    requires Lookup(v, keys) != Undefined
    ensures Selected(v, keys) == Lookup(v, keys)
    decreases |keys|
  {
    if keys != [] {
      LookupAgreesWithSelected(Member(v, keys[0]), keys[1..]);
    }
  }

  // ---------------------------------------------------------- updateAtPath

  /** The object a write descends into under `k`: the existing one, or a fresh `{}` in place of anything else. */
  function ChildFor(v: Value, k: string): (c: Value)
    ensures IsObject(c)
  {
    if IsObject(Member(v, k)) then Member(v, k) else Obj(map[])
  }

  /** The tree after writing `x` at `keys`, no other object changed: the evident intent of `updateAtPath`. */
  function UpdatedAt(v: Value, keys: seq<string>, x: Value): Value
    requires keys != []
    decreases |keys|
  {
    if |keys| == 1 then SetMember(v, keys[0], x)
    else SetMember(v, keys[0], UpdatedAt(ChildFor(v, keys[0]), keys[1..], x))
  }

  /** Every key of `keys` can be stored along the way (always so through objects). */
  predicate StorablePath(v: Value, keys: seq<string>)
    requires keys != []
    decreases |keys|
  {
    Storable(v, keys[0]) && (|keys| > 1 ==> StorablePath(ChildFor(v, keys[0]), keys[1..]))
  }

  /** `select(updateAtPath(s, p, x), p) == x`. */
  lemma {:induction false} SelectUpdatedAt(v: Value, keys: seq<string>, x: Value)
    requires keys != [] && StorablePath(v, keys)
    ensures Selected(UpdatedAt(v, keys, x), keys) == x
    decreases |keys|
  {
    MemberSetMember(v, keys[0], if |keys| == 1 then x else UpdatedAt(ChildFor(v, keys[0]), keys[1..], x));
    if |keys| > 1 {
      SelectUpdatedAt(ChildFor(v, keys[0]), keys[1..], x);
    }
  }

  /** Writing under one key of an object leaves every other key of it as it was. */
  lemma UpdatedAtOtherKey(v: Value, keys: seq<string>, x: Value, k: string)
    requires keys != [] && v.Obj? && k != keys[0]
    ensures Member(UpdatedAt(v, keys, x), k) == Member(v, k)
  {
  }

  /** A value that is not an object, met before the last key, is replaced by a fresh object. */
  lemma UpdatedAtReplacesNonObject(v: Value, keys: seq<string>, x: Value)
    requires |keys| > 1 && v.Obj? && !IsObject(Member(v, keys[0]))
    ensures Member(UpdatedAt(v, keys, x), keys[0]) == UpdatedAt(Obj(map[]), keys[1..], x)
  {
  }

  /** `{ ...state }` (`[...state]` for an array): the top-level copy `updateAtPath` writes into. */
  function ShallowClone(state: Value): (c: Value)
    ensures IsObject(c)
    ensures IsObject(state) ==> c == state
  {
    if state.Arr? then state else Spread(state)
  }

  /**
   * What the caller's own `state` reads as once `updateAtPath` returns. Only
   * the top level is copied: an existing object under the first key is the
   * caller's own object, and the descent writes into it. Values here have no
   * identity, so this sharing is spelled out by hand rather than derived
   * from the descent in `UpdateAtPath`.
   */
  ghost function CallerViewAfterUpdate(state: Value, keys: seq<string>, x: Value): Value
    requires keys != []
  {
    var k := keys[0];
    if |keys| > 1 && IsObject(Member(state, k)) then
      SetMember(state, k, UpdatedAt(Member(state, k), keys[1..], x))
    else state
  }

  /**
   * `updateAtPath(state, path, value)` as written: copy the top level, walk
   * down creating `{}` in place of non-objects, write the value at the last
   * key. The descent is the `spine` of objects visited; the writes are
   * replayed bottom-up. `callerSees` is the caller's own `state` afterwards.
   */
  method UpdateAtPath(state: Value, path: string, value: Value) returns (r: Value, ghost callerSees: Value)
    ensures PathKeys(path) == [] ==> r == state
    ensures PathKeys(path) != [] ==> r == UpdatedAt(ShallowClone(state), PathKeys(path), value)
    ensures PathKeys(path) == [] ==> callerSees == state
    ensures PathKeys(path) != [] ==> callerSees == CallerViewAfterUpdate(state, PathKeys(path), value)
  {
    var keys := PathKeys(path);
    if |keys| == 0 {
      return state, state;
    }
    var spine := Descend(ShallowClone(state), keys);
    r := WriteBack(spine, keys, value);
    callerSees := CallerViewAfterUpdate(state, keys, value);
  }

  /** The objects a write along `keys` passes through: `spine[i]` is the one the i-th key is read from. */
  predicate IsSpine(spine: seq<Value>, keys: seq<string>)
  {
    |spine| == |keys| &&
    forall j :: 0 <= j < |keys| - 1 ==> spine[j + 1] == ChildFor(spine[j], keys[j])
  }

  /** The descent of `updateAtPath`: read each key but the last, putting `{}` in place of a non-object. */
  method Descend(root: Value, keys: seq<string>) returns (spine: seq<Value>)
    requires keys != []
    ensures IsSpine(spine, keys) && spine[0] == root
  {
    spine := [root];
    var i := 0;
    while i < |keys| - 1
      invariant 0 <= i <= |keys| - 1
      invariant |spine| == i + 1 && spine[0] == root
      invariant forall j :: 0 <= j < i ==> spine[j + 1] == ChildFor(spine[j], keys[j])
    {
      var next := Member(spine[i], keys[i]);
      if !IsObject(next) {
        next := Obj(map[]);
      }
      spine := spine + [next];
      i := i + 1;
    }
  }

  /** The write of `updateAtPath`: set the value at the last key, then store each object back into its parent. */
  method WriteBack(spine: seq<Value>, keys: seq<string>, value: Value) returns (r: Value)
    requires keys != [] && IsSpine(spine, keys)
    ensures r == UpdatedAt(spine[0], keys, value)
  {
    var n := |keys|;
    r := SetMember(spine[n - 1], keys[n - 1], value);
    var j := n - 1;
    while j > 0
      invariant 0 <= j <= n - 1
      invariant r == UpdatedAt(spine[j], keys[j..], value)
    {
      assert keys[j - 1..][1..] == keys[j..];
      r := SetMember(spine[j - 1], keys[j - 1], r);
      j := j - 1;
    }
    assert keys[0..] == keys;
  }

  /** The path "a.b" has the keys "a" and "b". */
  lemma PathKeysAB()
    ensures PathKeys("a.b") == ["a", "b"]
  {
    PathKeysJoin(["a", "b"]);
    assert Join(["a", "b"], '.') == "a.b";
  }

  /** The caller's own state changes whenever the path goes through an existing nested object. */
  lemma UpdateAtPathChangesCaller()
    ensures var s := Obj(map["a" := Obj(map["b" := Number(Int(1))])]);
      var keys := PathKeys("a.b");
      keys == ["a", "b"] &&
      CallerViewAfterUpdate(s, keys, Number(Int(2))) == Obj(map["a" := Obj(map["b" := Number(Int(2))])]) &&
      CallerViewAfterUpdate(s, keys, Number(Int(2))) != s
  {
    PathKeysAB();
    var s := Obj(map["a" := Obj(map["b" := Number(Int(1))])]);
    var keys := ["a", "b"];
    assert Member(s, "a") == Obj(map["b" := Number(Int(1))]);
    assert UpdatedAt(Member(s, "a"), keys[1..], Number(Int(2))) == Obj(map["b" := Number(Int(2))]);
    assert Obj(map["b" := Number(Int(2))]) != Obj(map["b" := Number(Int(1))]) by {
      assert Member(Obj(map["b" := Number(Int(2))]), "b") != Member(Obj(map["b" := Number(Int(1))]), "b");
    }
  }

  /** With the intended semantics the result carries the write and the argument is untouched. */
  lemma UpdatedAtLeavesArgument(state: Value, keys: seq<string>, x: Value)
    requires keys != [] && StorablePath(state, keys) && state.Obj?
    ensures Selected(UpdatedAt(ShallowClone(state), keys, x), keys) == x
    ensures ShallowClone(state) == state
  {
    SelectUpdatedAt(state, keys, x);
  }
}
