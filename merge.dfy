/**
 * The structural merge of a partial state into a state (src/state.ts,
 * `mergeDeep` and `mergeDefined`): keys the patch leaves undefined keep
 * their old value, two plain objects merge key by key, and anything else
 * (arrays included) is replaced whole.
 */
module Merge {
  import opened Wrappers
  import opened JsValue

  /** The keys the patch writes: its entries that are not undefined. */
  function Written(e: map<string, Value>): (ks: set<string>)
    ensures forall k :: k in ks <==> k in e && e[k] != Undefined
  {
    set k | k in e && e[k] != Undefined
  }

  /** The value the merge leaves under a key the patch writes with `v`. */
  function MergedField(b: map<string, Value>, k: string, v: Value): Value
    decreases v, 1
  {
    if v.Obj? && k in b && b[k].Obj? then Merged(b[k], v) else v
  }

  /**
   * `mergeDeep(base, patch)` as a value. Unless both are objects the result
   * is `{ ...patch }`; otherwise every key of the base is kept and every key
   * the patch writes is merged in.
   */
  function Merged(base: Value, patch: Value): (r: Value)
    requires !base.Arr?
    ensures r.Obj?
    decreases patch, 0
  {
    if !IsObject(base) || !IsObject(patch) then Spread(patch)
    else
      var b := base.fields;
      var e := OwnEntries(patch);
      Obj(map k | k in b.Keys + Written(e) :: if k in e && e[k] != Undefined then MergedField(b, k, e[k]) else b[k])
  }

  /** `out` after the loop has stored the entries under the keys in `done`. */
  ghost function Partial(b: map<string, Value>, e: map<string, Value>, done: set<string>): map<string, Value> {
    map k | k in b.Keys + (Written(e) * done) :: if k in Written(e) && k in done then MergedField(b, k, e[k]) else b[k]
  }

  lemma PartialStep(b: map<string, Value>, e: map<string, Value>, done: set<string>, k: string)
    requires k in e && k !in done
    ensures e[k] == Undefined ==> Partial(b, e, done + {k}) == Partial(b, e, done)
    ensures e[k] != Undefined ==> Partial(b, e, done + {k}) == Partial(b, e, done)[k := MergedField(b, k, e[k])]
  {
  }

  /**
   * `mergeDeep`: copy the base, then store each entry of the patch in turn,
   * skipping undefined ones and merging recursively where both sides are
   * plain objects. The entries are visited in any order.
   */
  method MergeDeep(base: Value, patch: Value) returns (r: Value)
    requires !base.Arr?
    ensures r == Merged(base, patch)
    decreases patch
  {
    if !IsObject(base) || !IsObject(patch) {
      return Spread(patch);
    }
    var b := base.fields;
    var entries := OwnEntries(patch);
    var out := b;
    var todo := entries.Keys;
    assert out == Partial(b, entries, {});
    while todo != {}
      invariant todo <= entries.Keys
      invariant out == Partial(b, entries, entries.Keys - todo)
      decreases todo
    {
      var k :| k in todo;
      var v := entries[k];
      ghost var done := entries.Keys - todo;
      PartialStep(b, entries, done, k);
      if v != Undefined {
        if v.Obj? && k in out && out[k].Obj? {
          var sub := MergeDeep(out[k], v);
          out := out[k := sub];
        } else {
          out := out[k := v];
        }
      }
      todo := todo - {k};
      assert entries.Keys - todo == done + {k};
    }
    assert todo == {} && entries.Keys - todo == entries.Keys;
    PartialComplete(base, patch);
    r := Obj(out);
  }

  lemma PartialComplete(base: Value, patch: Value)
    requires base.Obj? && IsObject(patch)
    ensures Obj(Partial(base.fields, OwnEntries(patch), OwnEntries(patch).Keys)) == Merged(base, patch)
  {
    var e := OwnEntries(patch);
    assert Partial(base.fields, e, e.Keys) == Merged(base, patch).fields;
  }

  /** `mergeDefined(base, patch)`: with no base the patch is the whole state. */
  method MergeDefined(base: Value, patch: Value) returns (r: Value)
    requires !base.Arr?
    ensures IsNullish(base) ==> r == patch
    ensures !IsNullish(base) ==> r == Merged(base, patch)
  {
    if IsNullish(base) {
      return patch;
    }
    r := MergeDeep(base, patch);
  }

  // ---------------------------------------------------------------- lemmas

  /** Keys the patch does not write keep their value in the result. */
  lemma MergedKeeps(base: Value, patch: Value, k: string)
    requires base.Obj? && IsObject(patch)
    requires Member(patch, k) == Undefined || k !in OwnEntries(patch)
    ensures Member(Merged(base, patch), k) == Member(base, k)
  {
  }

  /** A written key whose old or new value is not a plain object takes the new value whole; arrays are never merged element-wise. */
  lemma MergedReplaces(base: Value, patch: Value, k: string)
    requires base.Obj? && patch.Obj? && k in patch.fields && patch.fields[k] != Undefined
    requires !(patch.fields[k].Obj? && Member(base, k).Obj?)
    ensures Member(Merged(base, patch), k) == patch.fields[k]
  {
  }

  /** A written key where both sides hold plain objects merges them. */
  lemma MergedRecurses(base: Value, patch: Value, k: string)
    requires base.Obj? && patch.Obj? && k in patch.fields
    requires patch.fields[k].Obj? && Member(base, k).Obj?
    ensures Member(Merged(base, patch), k) == Merged(Member(base, k), patch.fields[k])
  {
  }

  /** `mergeDeep(S, {})` is `S` for every object `S`. */
  lemma MergedEmptyPatch(s: Value)
    requires s.Obj?
    ensures Merged(s, Obj(map[])) == s
  {
  }

  /** Merging a state into itself changes nothing. */
  lemma {:induction false} MergedSelf(s: Value)
    requires s.Obj?
    ensures Merged(s, s) == s
    decreases s
  {
    var f := s.fields;
    forall k | k in f && f[k] != Undefined && f[k].Obj?
      ensures MergedField(f, k, f[k]) == f[k]
    {
      MergedSelf(f[k]);
    }
    assert Merged(s, s).fields == f;
  }

  /** Applying the same patch twice is applying it once. */
  lemma {:induction false} MergedIdempotent(base: Value, patch: Value)
    requires base.Obj?
    ensures Merged(Merged(base, patch), patch) == Merged(base, patch)
    decreases patch, 1
  {
    if IsObject(patch) {
      var m := Merged(base, patch);
      var e := OwnEntries(patch);
      forall k | k in Written(e)
        ensures MergedField(m.fields, k, e[k]) == m.fields[k]
      {
        MergedIdempotentAt(base, patch, k);
      }
      var mm := Merged(m, patch).fields;
      assert mm.Keys == m.fields.Keys;
      forall k | k in mm
        ensures mm[k] == m.fields[k]
      {
      }
      assert mm == m.fields;
    }
  }

  lemma {:induction false} MergedIdempotentAt(base: Value, patch: Value, k: string)
    requires base.Obj? && IsObject(patch) && k in Written(OwnEntries(patch))
    ensures var m := Merged(base, patch);
      MergedField(m.fields, k, OwnEntries(patch)[k]) == m.fields[k]
    decreases patch, 0
  {
    var b := base.fields;
    var v := OwnEntries(patch)[k];
    if v.Obj? && k in b && b[k].Obj? {
      MergedIdempotent(b[k], v);
    } else if v.Obj? {
      MergedSelf(v);
    }
  }

  /** A patch with no undefined entries merged into the empty state is the patch itself. */
  lemma MergedIntoEmpty(patch: Value)
    requires patch.Obj? && forall k :: k in patch.fields ==> patch.fields[k] != Undefined
    ensures Merged(Obj(map[]), patch) == patch
  {
    assert Merged(Obj(map[]), patch).fields == patch.fields;
  }
}
