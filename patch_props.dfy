/**
 * Properties of the structural diff (src/patch/patch.ts): what the push and
 * pull lists hold, that a payload diffed against itself or against a
 * reordering of its sub-model entries gives no update, and that two payloads
 * fitting the schema always diff without an error (in particular no path is
 * ever written twice).
 */
module DiffProps {
  import opened Wrappers
  import opened Values
  import opened Dict
  import opened FieldTypes
  import Field
  import Definition
  import opened Patch

  // ---------------------------------------------------------------------------
  // The push and pull lists

  /** An item is in `Unmatched` exactly when its position is below `n`, its key is not among `others` and it carries `vals` at that position. */
  lemma {:induction false} UnmatchedMembers(keys: seq<Value>, others: seq<Value>, vals: seq<Value>, n: nat, e: IdPos)
    requires n <= |keys| == |vals|
    ensures e in Unmatched(keys, others, vals, n) <==>
            e.position < n && keys[e.position] !in others && e.idOrValue == vals[e.position]
  {
    if n > 0 {
      UnmatchedMembers(keys, others, vals, n - 1, e);
    }
  }

  /** The items come in strictly increasing position order. */
  predicate Increasing(r: seq<IdPos>)
  {
    forall a, b :: 0 <= a < b < |r| ==> r[a].position < r[b].position
  }

  /** The items of `Unmatched` come in increasing position order, so each position occurs once. */
  lemma {:induction false} UnmatchedOrdered(keys: seq<Value>, others: seq<Value>, vals: seq<Value>, n: nat)
    requires n <= |keys| == |vals|
    ensures Increasing(Unmatched(keys, others, vals, n))
  {
    if n > 0 {
      UnmatchedOrdered(keys, others, vals, n - 1);
      var r0 := Unmatched(keys, others, vals, n - 1);
      forall a | 0 <= a < |r0|
        ensures r0[a].position < n - 1
      {
        UnmatchedMembers(keys, others, vals, n - 1, r0[a]);
      }
      var r := Unmatched(keys, others, vals, n);
      assert r == r0 + (if keys[n - 1] in others then [] else [IdPos(n - 1, vals[n - 1])]);
      forall a, b | 0 <= a < b < |r|
        ensures r[a].position < r[b].position
      {
        assert r[a] == r0[a];
        assert r0[a].position < n - 1;
        if b >= |r0| {
          assert r[b].position == n - 1;
        } else {
          assert r[b] == r0[b];
        }
      }
    }
  }

  /** When every key is among `others`, nothing is unmatched. */
  lemma UnmatchedNone(keys: seq<Value>, others: seq<Value>, vals: seq<Value>)
    requires |keys| == |vals|
    requires forall p :: 0 <= p < |keys| ==> keys[p] in others
    ensures Unmatched(keys, others, vals, |keys|) == []
  {
    var r := Unmatched(keys, others, vals, |keys|);
    if r != [] {
      UnmatchedMembers(keys, others, vals, |keys|, r[0]);
    }
  }

  /** A sub-model `$pull` item is an old entry whose id the new array lacks: its old position and its id. */
  lemma SubPullsSpec(oldItems: seq<Value>, newItems: seq<Value>, e: IdPos)
    ensures e in SubPulls(oldItems, newItems) <==>
            e.position < |oldItems| && IdOf(oldItems[e.position]) !in Ids(newItems) && e.idOrValue == IdOf(oldItems[e.position])
  {
    UnmatchedMembers(Ids(oldItems), Ids(newItems), Ids(oldItems), |oldItems|, e);
  }

  /** A sub-model `$push` item is a new entry whose id the old array lacks: its new position and the whole entry. */
  lemma SubPushesSpec(oldItems: seq<Value>, newItems: seq<Value>, e: IdPos)
    ensures e in SubPushes(oldItems, newItems) <==>
            e.position < |newItems| && IdOf(newItems[e.position]) !in Ids(oldItems) && e.idOrValue == newItems[e.position]
  {
    UnmatchedMembers(Ids(newItems), Ids(oldItems), newItems, |newItems|, e);
  }

  /** A primitive `$push` item is a new value the old array lacks, at its new position. */
  lemma PrimitivePushesSpec(oldItems: seq<Value>, newItems: seq<Value>, e: IdPos)
    ensures e in PrimitivePushes(oldItems, newItems) <==>
            e.position < |newItems| && newItems[e.position] !in oldItems && e.idOrValue == newItems[e.position]
  {
    UnmatchedMembers(newItems, oldItems, newItems, |newItems|, e);
  }

  /** A primitive `$pull` item is an old value the new array lacks, at its old position. */
  lemma PrimitivePullsSpec(oldItems: seq<Value>, newItems: seq<Value>, e: IdPos)
    ensures e in PrimitivePulls(oldItems, newItems) <==>
            e.position < |oldItems| && oldItems[e.position] !in newItems && e.idOrValue == oldItems[e.position]
  {
    UnmatchedMembers(oldItems, newItems, oldItems, |oldItems|, e);
  }

  // ---------------------------------------------------------------------------
  // Writing a path twice

  /** A second `$set` on the same path throws exactly when the first value was truthy. */
  lemma {:induction false} SetTwice(u: Update, path: Path, v: Value, w: Value)
    requires SetAt(u, path, v).Ok?
    ensures SetAt(SetAt(u, path, v).value, path, w).Err? <==> Truthy(v)
  {
    PutEntryLookup(u.sets, path, v, path);
  }

  /** A second non-empty `$push` (or `$pull`) on the same path always throws. */
  lemma {:induction false} PushTwice(u: Update, path: Path, a: seq<IdPos>, b: seq<IdPos>, t: ArrayType, t': ArrayType)
    requires a != [] && b != [] && PushAt(u, path, a, t).Ok?
    ensures PushAt(PushAt(u, path, a, t).value, path, b, t') == Err(DefinedMessage)
    ensures PullAt(u, path, a, t).Ok? ==> PullAt(PullAt(u, path, a, t).value, path, b, t') == Err(DefinedMessage)
  {
    PutEntryLookup(u.pushes, path, ArrayOp(t, a), path);
    PutEntryLookup(u.pulls, path, ArrayOp(t, a), path);
  }

  // ---------------------------------------------------------------------------
  // Payloads that fit a schema

  /** The ids in slot 0 of the entries are pairwise different. */
  predicate DistinctIds(items: seq<Value>)
  {
    forall a, b :: 0 <= a < b < |items| ==> IdOf(items[a]) != IdOf(items[b])
  }

  /** A payload that fits a schema: one slot per field, each slot fitting its field. */
  predicate Fits(x: seq<Value>, fields: seq<Definition.FieldMeta>)
    decreases SizeItems(x), 3, 0
  {
    |x| == |fields| && FitsFrom(x, fields, 0)
  }

  predicate FitsFrom(x: seq<Value>, fields: seq<Definition.FieldMeta>, i: nat)
    requires |x| == |fields| && i <= |x|
    decreases SizeItems(x), 2, |x| - i
  {
    if i == |x| then true
    else
      SizeItemsBound(x, i);
      FitsField(x[i], fields[i].field) && FitsFrom(x, fields, i + 1)
  }

  /** A sub-model slot holds entries with distinct ids that fit the sub-schema; a primitive array slot holds an array. */
  predicate FitsField(v: Value, f: Field.FieldDesc)
    decreases Size(v), 1, 0
  {
    if f.fieldType == FieldType.eSubModel then
      v.Arr? && DistinctIds(v.items) && EntriesFit(v.items, Definition.SubFields(f), 0)
    else if f.isArray then v.Arr?
    else true
  }

  predicate EntriesFit(items: seq<Value>, sub: seq<Definition.FieldMeta>, j: nat)
    requires j <= |items|
    decreases SizeItems(items), 0, |items| - j
  {
    if j == |items| then true
    else
      SizeItemsBound(items, j);
      items[j].Arr? && Fits(items[j].items, sub) && EntriesFit(items, sub, j + 1)
  }

  lemma {:induction false} EntriesFitAt(items: seq<Value>, sub: seq<Definition.FieldMeta>, j: nat, k: nat)
    requires j <= k < |items| && EntriesFit(items, sub, j)
    ensures items[k].Arr? && Fits(items[k].items, sub)
    decreases k - j
  {
    if j < k {
      EntriesFitAt(items, sub, j + 1, k);
    }
  }

  /** Entries that fit are arrays, so reading their ids never throws. */
  lemma EntriesFitIndexable(items: seq<Value>, sub: seq<Definition.FieldMeta>)
    requires EntriesFit(items, sub, 0)
    ensures AllIndexable(items)
  {
    forall k | 0 <= k < |items|
      ensures Indexable(items[k])
    {
      EntriesFitAt(items, sub, 0, k);
    }
  }

  // ---------------------------------------------------------------------------
  // No update between equal payloads

  /** A payload fitting the schema, diffed against itself, leaves the dictionaries as they were. */
  lemma {:induction false} ObjectPatchSelf(u: Update, prefix: Path, x: seq<Value>, fields: seq<Definition.FieldMeta>)
    requires Fits(x, fields)
    ensures ObjectPatch(u, prefix, x, x, fields) == Ok(u)
    decreases SizeItems(x), 3, 0
  {
    FieldsPatchSelf(u, prefix, x, fields, 0);
  }

  lemma {:induction false} FieldsPatchSelf(u: Update, prefix: Path, x: seq<Value>, fields: seq<Definition.FieldMeta>, i: nat)
    requires |x| == |fields| && i <= |x| && FitsFrom(x, fields, i)
    ensures FieldsPatch(u, prefix, x, x, fields, i) == Ok(u)
    decreases SizeItems(x), 2, |x| - i
  {
    if i < |x| {
      SizeItemsBound(x, i);
      FieldPatchSelf(u, prefix + [i], x[i], fields[i].field);
      FieldsPatchSelf(u, prefix, x, fields, i + 1);
    }
  }

  lemma {:induction false} FieldPatchSelf(u: Update, path: Path, v: Value, f: Field.FieldDesc)
    requires FitsField(v, f)
    ensures FieldPatch(u, path, v, v, f) == Ok(u)
    decreases Size(v), 1, 0
  {
    if f.fieldType == FieldType.eSubModel {
      EntriesFitIndexable(v.items, Definition.SubFields(f));
      EntriesPatchPerm(u, path, v.items, v.items, Definition.SubFields(f), 0);
      UnmatchedNone(Ids(v.items), Ids(v.items), v.items);
      UnmatchedNone(Ids(v.items), Ids(v.items), Ids(v.items));
    } else if f.isArray {
      UnmatchedNone(v.items, v.items, v.items);
    }
  }

  /**
   * The entry loop leaves the dictionaries as they were when every old entry
   * from `j` on occurs unchanged among the new entries and the new ids are
   * distinct: each is then matched with itself.
   */
  lemma {:induction false} EntriesPatchPerm(u: Update, path: Path, oldItems: seq<Value>, newItems: seq<Value>,
                                            sub: seq<Definition.FieldMeta>, j: nat)
    requires j <= |oldItems| && EntriesFit(oldItems, sub, j) && DistinctIds(newItems)
    requires forall q :: j <= q < |oldItems| ==> oldItems[q] in newItems
    ensures EntriesPatch(u, path, oldItems, newItems, sub, j) == Ok(u)
    decreases SizeItems(oldItems), 0, |oldItems| - j
  {
    if j < |oldItems| {
      var q :| 0 <= q < |newItems| && newItems[q] == oldItems[j];
      assert Ids(newItems)[q] == IdOf(oldItems[j]);
      var k := IndexOf(Ids(newItems), IdOf(oldItems[j]));
      assert k == q;
      SizeItemsBound(oldItems, j);
      ObjectPatchSelf(u, path + [j], oldItems[j].items, sub);
      EntriesPatchPerm(u, path, oldItems, newItems, sub, j + 1);
    }
  }

  /** Diffing a payload against itself yields three empty dictionaries. */
  lemma DiffSelfEmpty(x: seq<Value>, fields: seq<Definition.FieldMeta>)
    requires Fits(x, fields)
    ensures Diff(x, x, fields) == Ok(NoUpdates)
  {
    ObjectPatchSelf(NoUpdates, [], x, fields);
  }

  /**
   * Reordering the entries of a sub-model array (same entries, distinct ids)
   * changes nothing at that field: no `$push`, no `$pull`, and the matched
   * entries diff empty.
   */
  lemma ReorderNoChange(u: Update, path: Path, oldItems: seq<Value>, newItems: seq<Value>, f: Field.FieldDesc)
    requires f.fieldType == FieldType.eSubModel
    requires FitsField(Arr(oldItems), f) && DistinctIds(newItems)
    requires multiset(oldItems) == multiset(newItems)
    ensures FieldPatch(u, path, Arr(oldItems), Arr(newItems), f) == Ok(u)
  {
    forall q | 0 <= q < |oldItems|
      ensures oldItems[q] in newItems
    {
      assert oldItems[q] in multiset(oldItems);
    }
    EntriesFitIndexable(oldItems, Definition.SubFields(f));
    EntriesPatchPerm(u, path, oldItems, newItems, Definition.SubFields(f), 0);
    forall p | 0 <= p < |newItems|
      ensures Ids(newItems)[p] in Ids(oldItems) && Indexable(newItems[p])
    {
      assert newItems[p] in multiset(newItems);
      var q :| 0 <= q < |oldItems| && oldItems[q] == newItems[p];
      assert Ids(oldItems)[q] == IdOf(newItems[p]);
    }
    forall p | 0 <= p < |oldItems|
      ensures Ids(oldItems)[p] in Ids(newItems)
    {
      var q :| 0 <= q < |newItems| && newItems[q] == oldItems[p];
      assert Ids(newItems)[q] == IdOf(oldItems[p]);
    }
    UnmatchedNone(Ids(newItems), Ids(oldItems), newItems);
    UnmatchedNone(Ids(oldItems), Ids(newItems), Ids(oldItems));
    SubModelPatchNone(u, path, oldItems, newItems, f);
  }

  /** A sub-model field whose entries all match and diff empty, with nothing to push or pull, adds nothing. */
  lemma SubModelPatchNone(u: Update, path: Path, oldItems: seq<Value>, newItems: seq<Value>, f: Field.FieldDesc)
    requires f.fieldType == FieldType.eSubModel && AllIndexable(oldItems) && AllIndexable(newItems)
    requires EntriesPatch(u, path, oldItems, newItems, Definition.SubFields(f), 0) == Ok(u)
    requires SubPushes(oldItems, newItems) == [] && SubPulls(oldItems, newItems) == []
    ensures FieldPatch(u, path, Arr(oldItems), Arr(newItems), f) == Ok(u)
  {
  }

  // ---------------------------------------------------------------------------
  // Errors

  /** Payloads longer than the schema are rejected: the loop reaches a field the schema lacks (or fails earlier). */
  lemma {:induction false} FieldsBeyondSchema(u: Update, prefix: Path, oldObj: seq<Value>, newObj: seq<Value>,
                                              fields: seq<Definition.FieldMeta>, i: nat)
    requires |oldObj| == |newObj| && i <= |fields| < |oldObj|
    ensures FieldsPatch(u, prefix, oldObj, newObj, fields, i).Err?
    decreases |fields| - i
  {
    if i < |fields| {
      var next := FieldsPatchUnfold(u, prefix, oldObj, newObj, fields, i);
      if next.Some? {
        FieldsBeyondSchema(next.value, prefix, oldObj, newObj, fields, i + 1);
      }
    } else {
      FieldsPatchNoField(u, prefix, oldObj, newObj, fields, i);
    }
  }

  /** The field loop throws at a slot the schema has no field for. */
  lemma FieldsPatchNoField(u: Update, prefix: Path, oldObj: seq<Value>, newObj: seq<Value>,
                           fields: seq<Definition.FieldMeta>, i: nat)
    requires |oldObj| == |newObj| && |fields| <= i < |oldObj|
    ensures FieldsPatch(u, prefix, oldObj, newObj, fields, i) == Err(NoFieldMessage)
  {
  }

  /** One pass of the field loop, for a field the schema has: it fails, or it goes on from the updates `next`. */
  lemma FieldsPatchUnfold(u: Update, prefix: Path, oldObj: seq<Value>, newObj: seq<Value>,
                          fields: seq<Definition.FieldMeta>, i: nat) returns (next: Option<Update>)
    requires |oldObj| == |newObj| && i < |oldObj| && i < |fields|
    ensures next.None? ==> FieldsPatch(u, prefix, oldObj, newObj, fields, i).Err?
    ensures next.Some? ==> FieldsPatch(u, prefix, oldObj, newObj, fields, i) == FieldsPatch(next.value, prefix, oldObj, newObj, fields, i + 1)
  {
    var r := FieldPatch(u, prefix + [i], oldObj[i], newObj[i], fields[i].field);
    next := if r.Err? then None else Some(r.value);
  }

  /** Payloads of different lengths, or longer than the schema, are rejected. */
  lemma DiffShapeErrors(oldObj: seq<Value>, newObj: seq<Value>, fields: seq<Definition.FieldMeta>)
    ensures |oldObj| != |newObj| ==> Diff(oldObj, newObj, fields) == Err(SizeMessage)
    ensures |oldObj| == |newObj| > |fields| ==> Diff(oldObj, newObj, fields).Err?
  {
    if |oldObj| == |newObj| > |fields| {
      FieldsBeyondSchema(NoUpdates, [], oldObj, newObj, fields, 0);
    }
  }

  // ---------------------------------------------------------------------------
  // No error between payloads that fit the schema

  /** `k` is a key of one of the three action dictionaries. */
  ghost predicate Has(u: Update, k: Path)
  {
    LookupEntry(u.sets, k).Some? || LookupEntry(u.pushes, k).Some? || LookupEntry(u.pulls, k).Some?
  }

  /** No key of `u` is `p` or lies under it. */
  ghost predicate Avoids(u: Update, p: Path)
  {
    forall k :: Has(u, k) ==> !(p <= k)
  }

  /** No key of `u` lies under `p + [j']` for a `j' >= j`. */
  ghost predicate AvoidsFrom(u: Update, p: Path, j: nat)
  {
    forall k :: Has(u, k) && p < k ==> k[|p|] < j
  }

  /** Every key of `v` is a key of `u` or lies under `p + [j']` for a `j' >= j`. */
  ghost predicate Within(u: Update, v: Update, p: Path, j: nat)
  {
    forall k :: Has(v, k) ==> Has(u, k) || (p < k && k[|p|] >= j)
  }

  /** Every key of `v` is a key of `u`, or is `p` or lies under it. */
  ghost predicate WithinAt(u: Update, v: Update, p: Path)
  {
    forall k :: Has(v, k) ==> Has(u, k) || p <= k
  }

  lemma {:induction false} PushPullKeys(u: Update, path: Path, push: seq<IdPos>, pull: seq<IdPos>, t: ArrayType)
    requires !Has(u, path)
    ensures PushPull(u, path, push, pull, t).Ok?
    ensures WithinAt(u, PushPull(u, path, push, pull, t).value, path)
  {
    var u1 := PushAt(u, path, push, t).value;
    forall k
      ensures LookupEntry(u1.pushes, k).Some? ==> LookupEntry(u.pushes, k).Some? || k == path
    {
      PutEntryLookup(u.pushes, path, ArrayOp(t, push), k);
    }
    forall k
      ensures LookupEntry(PushPull(u, path, push, pull, t).value.pulls, k).Some? ==> LookupEntry(u1.pulls, k).Some? || k == path
    {
      PutEntryLookup(u1.pulls, path, ArrayOp(t, pull), k);
    }
  }

  lemma {:induction false} SetAtKeys(u: Update, path: Path, v: Value)
    requires !Has(u, path)
    ensures SetAt(u, path, v).Ok?
    ensures WithinAt(u, SetAt(u, path, v).value, path)
  {
    forall k
      ensures LookupEntry(SetAt(u, path, v).value.sets, k).Some? ==> LookupEntry(u.sets, k).Some? || k == path
    {
      PutEntryLookup(u.sets, path, v, k);
    }
  }

  lemma {:induction false} ObjectPatchOk(u: Update, prefix: Path, oldObj: seq<Value>, newObj: seq<Value>,
                                         fields: seq<Definition.FieldMeta>)
    requires Fits(oldObj, fields) && Fits(newObj, fields) && AvoidsFrom(u, prefix, 0)
    ensures ObjectPatch(u, prefix, oldObj, newObj, fields).Ok?
    ensures Within(u, ObjectPatch(u, prefix, oldObj, newObj, fields).value, prefix, 0)
    decreases SizeItems(oldObj), 3, 0
  {
    FieldsPatchOk(u, prefix, oldObj, newObj, fields, 0);
  }

  lemma {:induction false} FieldsPatchOk(u: Update, prefix: Path, oldObj: seq<Value>, newObj: seq<Value>,
                                         fields: seq<Definition.FieldMeta>, i: nat)
    requires |oldObj| == |newObj| == |fields| && i <= |oldObj|
    requires FitsFrom(oldObj, fields, i) && FitsFrom(newObj, fields, i) && AvoidsFrom(u, prefix, i)
    ensures FieldsPatch(u, prefix, oldObj, newObj, fields, i).Ok?
    ensures Within(u, FieldsPatch(u, prefix, oldObj, newObj, fields, i).value, prefix, i)
    decreases SizeItems(oldObj), 2, |oldObj| - i
  {
    if i < |oldObj| {
      var path := prefix + [i];
      SizeItemsBound(oldObj, i);
      FieldPatchOk(u, path, oldObj[i], newObj[i], fields[i].field);
      var u1 := FieldPatch(u, path, oldObj[i], newObj[i], fields[i].field).value;
      forall k | Has(u1, k) && prefix < k
        ensures k[|prefix|] < i + 1
      {
        if !Has(u, k) {
          assert path <= k;
          assert k[|prefix|] == path[|prefix|];
        }
      }
      FieldsPatchOk(u1, prefix, oldObj, newObj, fields, i + 1);
      forall k | Has(u1, k) && !Has(u, k)
        ensures prefix < k && k[|prefix|] >= i
      {
        assert path <= k;
        assert k[|prefix|] == path[|prefix|];
      }
    }
  }

  lemma {:induction false} FieldPatchOk(u: Update, path: Path, oldVal: Value, newVal: Value, f: Field.FieldDesc)
    requires FitsField(oldVal, f) && FitsField(newVal, f) && Avoids(u, path)
    ensures FieldPatch(u, path, oldVal, newVal, f).Ok?
    ensures WithinAt(u, FieldPatch(u, path, oldVal, newVal, f).value, path)
    decreases Size(oldVal), 1, 0
  {
    if f.fieldType == FieldType.eSubModel {
      EntriesFitIndexable(oldVal.items, Definition.SubFields(f));
      EntriesFitIndexable(newVal.items, Definition.SubFields(f));
      EntriesPatchOk(u, path, oldVal.items, newVal.items, Definition.SubFields(f), 0);
      var u1 := EntriesPatch(u, path, oldVal.items, newVal.items, Definition.SubFields(f), 0).value;
      assert !Has(u1, path);
      PushPullKeys(u1, path, SubPushes(oldVal.items, newVal.items), SubPulls(oldVal.items, newVal.items), ArrayType.eSubModel);
    } else if f.isArray {
      PushPullKeys(u, path, PrimitivePushes(oldVal.items, newVal.items), PrimitivePulls(oldVal.items, newVal.items), ArrayType.ePrimitive);
    } else if oldVal != newVal {
      SetAtKeys(u, path, newVal);
    }
  }

  lemma {:induction false} EntriesPatchOk(u: Update, path: Path, oldItems: seq<Value>, newItems: seq<Value>,
                                          sub: seq<Definition.FieldMeta>, j: nat)
    requires j <= |oldItems| && EntriesFit(oldItems, sub, j) && EntriesFit(newItems, sub, 0) && AvoidsFrom(u, path, j)
    ensures EntriesPatch(u, path, oldItems, newItems, sub, j).Ok?
    ensures Within(u, EntriesPatch(u, path, oldItems, newItems, sub, j).value, path, j)
    decreases SizeItems(oldItems), 0, |oldItems| - j
  {
    if j < |oldItems| {
      var k := IndexOf(Ids(newItems), IdOf(oldItems[j]));
      if k < 0 {
        EntriesPatchOk(u, path, oldItems, newItems, sub, j + 1);
      } else {
        EntriesFitAt(newItems, sub, 0, k);
        SizeItemsBound(oldItems, j);
        var p := path + [j];
        ObjectPatchOk(u, p, oldItems[j].items, newItems[k].items, sub);
        var u1 := ObjectPatch(u, p, oldItems[j].items, newItems[k].items, sub).value;
        forall q | Has(u1, q) && path < q
          ensures q[|path|] < j + 1
        {
          if !Has(u, q) {
            assert q[|path|] == p[|path|];
          }
        }
        EntriesPatchOk(u1, path, oldItems, newItems, sub, j + 1);
        forall q | Has(u1, q) && !Has(u, q)
          ensures path < q && q[|path|] >= j
        {
          assert q[|path|] == p[|path|];
        }
      }
    }
  }

  /**
   * Two payloads that fit the schema always diff without an error: no path
   * is written twice and no slot has the wrong shape.
   */
  lemma DiffOk(oldObj: seq<Value>, newObj: seq<Value>, fields: seq<Definition.FieldMeta>)
    requires Fits(oldObj, fields) && Fits(newObj, fields)
    ensures Diff(oldObj, newObj, fields).Ok?
  {
    ObjectPatchOk(NoUpdates, [], oldObj, newObj, fields);
  }
}
