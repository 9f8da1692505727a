/** Merging a proposed value into a config object
    (packages/core/src/agent/config-assistant-proposals.ts, lines 200 to 220), and the merge patch of
    section 2 of RFC 7396.

    Keys that every JavaScript object inherits, such as `__proto__`, are not part of this model. */
module ConfigMerge {
  import opened Common

  datatype Json = Null | Bool(flag: bool) | Num(number: int) | Str(text: string) | Arr(items: seq<Json>) | Rec(fields: Fields)

  type Fields = map<string, Json>

  /** No null anywhere a merge would look: in the fields of records, at any depth. */
  ghost predicate NullFree(j: Json) {
    j.Rec? ==> forall k | k in j.fields :: j.fields[k] != Null && NullFree(j.fields[k])
  }

  /** What the merge of `mergeChangeValue`, lines 212 to 220, makes of a record. */
  function Merge(existing: Fields, value: Json): Fields
    requires value.Rec?
    decreases value
  {
    map k | k in existing.Keys + value.fields.Keys && !(k in value.fields && value.fields[k].Null?) ::
      if k !in value.fields then existing[k]
      else if value.fields[k].Rec? && k in existing && existing[k].Rec? then Rec(Merge(existing[k].fields, value.fields[k]))
      else value.fields[k]
  }

  ghost predicate SameAt(a: Fields, b: Fields, k: string) {
    (k in a <==> k in b) && (k in a ==> a[k] == b[k])
  }

  /** The keys still to do are as they were, the others as they will be. */
  ghost predicate HalfMerged(merged: Fields, existing: Fields, value: Json, todo: set<string>)
    requires value.Rec?
  {
    forall k :: SameAt(merged, if k in todo || k !in value.fields then existing else Merge(existing, value), k)
  }

  /** One entry, lines 215 to 217. */
  method MergeEntry(merged: Fields, key: string, ghost existing: Fields, value: Json, ghost todo: set<string>) returns (r: Fields)
    requires value.Rec? && key in value.fields && key in todo
    requires HalfMerged(merged, existing, value, todo)
    ensures HalfMerged(r, existing, value, todo - {key})
    decreases value, 0
  {
    var entry := value.fields[key];
    assert SameAt(merged, existing, key);
    if entry.Null? {
      r := merged - {key};
    } else if entry.Rec? && key in merged && merged[key].Rec? {
      var inner := MergeChangeValue(merged[key].fields, entry);
      r := merged[key := Rec(inner)];
    } else {
      r := merged[key := entry];
    }
    assert SameAt(r, Merge(existing, value), key);
    forall k | k != key ensures SameAt(r, merged, k) {
    }
  }

  /** `mergeChangeValue`. The order of a record's keys makes no difference. */
  method MergeChangeValue(existing: Fields, value: Json) returns (merged: Fields)
    requires value.Rec?
    ensures merged == Merge(existing, value)
    decreases value
  {
    merged := existing;
    var todo := value.fields.Keys;
    while todo != {}
      invariant todo <= value.fields.Keys && HalfMerged(merged, existing, value, todo)
      decreases |todo|
    {
      var key :| key in todo;
      merged := MergeEntry(merged, key, existing, value, todo);
      todo := todo - {key};
    }
    AllMerged(merged, existing, value);
  }

  lemma AllMerged(merged: Fields, existing: Fields, value: Json)
    requires value.Rec? && HalfMerged(merged, existing, value, {})
    ensures merged == Merge(existing, value)
  {
    var whole := Merge(existing, value);
    forall k ensures SameAt(merged, whole, k) {
      assert SameAt(merged, if k !in value.fields then existing else whole, k);
    }
    SameEverywhere(merged, whole);
  }

  lemma SameEverywhere(a: Fields, b: Fields)
    requires forall k :: SameAt(a, b, k)
    ensures a == b
  {
    forall k | k in a || k in b ensures k in a && k in b && a[k] == b[k] {
      assert SameAt(a, b, k);
    }
    assert a.Keys == b.Keys;
  }

  /** MergePatch of section 2 of RFC 7396. An absent target counts as one that is no object. */
  function MergePatch(target: Option<Json>, patch: Json): Json
    decreases patch
  {
    if !patch.Rec? then patch
    else
      var t := if target.Some? && target.value.Rec? then target.value.fields else map[];
      Rec(map k | k in t.Keys + patch.fields.Keys && !(k in patch.fields && patch.fields[k].Null?) ::
        if k in patch.fields then MergePatch(if k in t then Some(t[k]) else None, patch.fields[k]) else t[k])
  }

  /** Every record in `value` that meets no record in `existing` is free of nulls. */
  ghost predicate Clean(existing: Fields, value: Json)
    requires value.Rec?
    decreases value
  {
    forall k | k in value.fields :: CleanAt(existing, value, k)
  }

  ghost predicate CleanAt(existing: Fields, value: Json, k: string)
    requires value.Rec? && k in value.fields
    decreases value, 0
  {
    value.fields[k].Rec? ==>
      if k in existing && existing[k].Rec? then Clean(existing[k].fields, value.fields[k]) else NullFree(value.fields[k])
  }

  lemma {:induction false} NullFreeIsClean(existing: Fields, value: Json)
    requires value.Rec? && NullFree(value)
    ensures Clean(existing, value)
    decreases value
  {
    forall k | k in value.fields ensures CleanAt(existing, value, k) {
      if value.fields[k].Rec? && k in existing && existing[k].Rec? {
        NullFreeIsClean(existing[k].fields, value.fields[k]);
      }
    }
  }

  /** A patch against nothing stays as it is exactly when it holds no null. */
  lemma {:induction false} PatchOfNothing(target: Option<Json>, patch: Json)
    requires target.Some? ==> !target.value.Rec?
    ensures MergePatch(target, patch) == patch <==> NullFree(patch)
    decreases patch
  {
    if patch.Rec? {
      var r := MergePatch(target, patch).fields;
      forall k | k in patch.fields ensures (k in r && r[k] == patch.fields[k]) <==> patch.fields[k] != Null && NullFree(patch.fields[k]) {
        PatchOfNothing(None, patch.fields[k]);
      }
      assert r.Keys <= patch.fields.Keys;
      SameMap(r, patch.fields);
    }
  }

  lemma SameMap(a: Fields, b: Fields)
    requires a.Keys <= b.Keys
    ensures a == b <==> forall k | k in b :: k in a && a[k] == b[k]
  {
    if forall k | k in b :: k in a && a[k] == b[k] {
      assert a.Keys == b.Keys;
    }
  }

  /** The merge is the standard's exactly on clean values, so on all that are free of nulls. */
  lemma {:induction false} MergeIsMergePatchIff(existing: Fields, value: Json)
    requires value.Rec?
    ensures Rec(Merge(existing, value)) == MergePatch(Some(Rec(existing)), value) <==> Clean(existing, value)
    decreases value
  {
    var m, p := Merge(existing, value), MergePatch(Some(Rec(existing)), value).fields;
    assert m.Keys == p.Keys;
    forall k | k in value.fields ensures (k in m ==> m[k] == p[k]) <==> CleanAt(existing, value, k) {
      var target := if k in existing then Some(existing[k]) else None;
      assert k in m ==> p[k] == MergePatch(target, value.fields[k]);
      if value.fields[k].Rec? {
        if k in existing && existing[k].Rec? {
          assert existing[k] == Rec(existing[k].fields);
          MergeIsMergePatchIff(existing[k].fields, value.fields[k]);
        } else {
          PatchOfNothing(target, value.fields[k]);
        }
      }
    }
    assert forall k | k in m && k !in value.fields :: m[k] == p[k];
    assert m == p <==> forall k | k in m :: m[k] == p[k];
  }

  /** Merging a record into itself. */
  lemma {:induction false} SelfMerge(value: Json)
    requires value.Rec?
    ensures Merge(value.fields, value) == value.fields <==> NullFree(value)
    decreases value
  {
    var m := Merge(value.fields, value);
    forall k | k in value.fields ensures (k in m && m[k] == value.fields[k]) <==> value.fields[k] != Null && NullFree(value.fields[k]) {
      if value.fields[k].Rec? {
        SelfMerge(value.fields[k]);
      }
    }
    SameMap(m, value.fields);
  }

  /** Applying a change twice is applying it once, exactly on the same clean values. */
  lemma {:induction false} MergeIsIdempotentIff(existing: Fields, value: Json)
    requires value.Rec?
    ensures Merge(Merge(existing, value), value) == Merge(existing, value) <==> Clean(existing, value)
    decreases value
  {
    var m := Merge(existing, value);
    var n := Merge(m, value);
    assert n.Keys == m.Keys;
    forall k | k in value.fields ensures (k in m ==> n[k] == m[k]) <==> CleanAt(existing, value, k) {
      if value.fields[k].Rec? {
        if k in existing && existing[k].Rec? {
          MergeIsIdempotentIff(existing[k].fields, value.fields[k]);
        } else {
          SelfMerge(value.fields[k]);
        }
      }
    }
    assert forall k | k in m && k !in value.fields :: n[k] == m[k];
    assert n == m <==> forall k | k in m :: n[k] == m[k];
  }

  /** On a value without nulls: the standard's merge patch, idempotent, and nothing it leaves out is lost. */
  lemma NullFreeMerge(existing: Fields, value: Json)
    requires value.Rec? && NullFree(value)
    ensures Rec(Merge(existing, value)) == MergePatch(Some(Rec(existing)), value)
    ensures Merge(Merge(existing, value), value) == Merge(existing, value)
    ensures forall k | k in existing :: k in Merge(existing, value)
  {
    NullFreeIsClean(existing, value);
    MergeIsMergePatchIff(existing, value);
    MergeIsIdempotentIff(existing, value);
  }
}
