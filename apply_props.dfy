/**
 * Properties of replaying a patch (src/patch/patch.ts `applyUpdate`,
 * `getDeepFPtr`, `resolveIndicesString`): what a pull keeps, where the
 * as-written replay and the corrected one agree, and a diff whose nested
 * `$set` the as-written replay rejects while the corrected one rebuilds the
 * new payload.
 */
module ApplyProps {
  import opened Wrappers
  import opened Values
  import opened Dict
  import opened FieldTypes
  import Field
  import Definition
  import opened Model
  import opened FieldPointer
  import opened Patch
  import opened PatchApply

  /** A pull keeps exactly the elements whose value (or id) is not listed, and keeps them in order. */
  lemma {:induction false} WithoutMembers(items: seq<Value>, t: ArrayType, keys: seq<Value>, x: Value)
    ensures x in Without(items, t, keys) <==> x in items && PullKey(t, x) !in keys
  {
    if items != [] {
      WithoutMembers(items[1..], t, keys, x);
      assert items == [items[0]] + items[1..];
    }
  }

  // ---------------------------------------------------------------------------
  // Where the as-written replay and the corrected one agree

  /** Every key of the three dictionaries has no sub-index. */
  predicate FlatKeys(u: Update)
  {
    (forall k :: 0 <= k < |u.sets| ==> |u.sets[k].0| <= 2)
    && (forall k :: 0 <= k < |u.pushes| ==> |u.pushes[k].0| <= 2)
    && (forall k :: 0 <= k < |u.pulls| ==> |u.pulls[k].0| <= 2)
  }

  /** Replaying `a + b` is replaying `a`, then `b` on the result. */
  lemma {:induction false} ApplyOpsAppend(p: seq<Value>, fields: seq<Definition.FieldMeta>, a: seq<(Path, SlotOp)>, b: seq<(Path, SlotOp)>)
    ensures ApplyOps(p, fields, a + b) == if ApplyOps(p, fields, a).Err? then ApplyOps(p, fields, a) else ApplyOps(ApplyOps(p, fields, a).value, fields, b)
    decreases |a|
  {
    if a == [] {
      assert a + b == b;
    } else {
      assert (a + b)[0] == a[0] && (a + b)[1..] == a[1..] + b;
      var r := AtPath(p, fields, a[0].0, a[0].1);
      if r.Ok? {
        ApplyOpsAppend(r.value, fields, a[1..], b);
      }
    }
  }

  /** The outcome and the record after a stage, seen as the replay of its actions on the payload of a mutable record. */
  predicate StageAgrees(s: ModelState, fields: seq<Definition.FieldMeta>, res: (ModelState, Outcome), ops: seq<(Path, SlotOp)>)
  {
    var q := ApplyOps(s.data.payload, fields, ops);
    (res.1.Pass? <==> q.Ok?) && (res.1.Pass? ==> res.0 == s.(data := s.data.(payload := q.value)))
  }

  lemma {:induction false} SetsAgree(s: ModelState, fields: seq<Definition.FieldMeta>, sets: seq<(Path, Value)>)
    requires s.mode == eOff && forall k :: 0 <= k < |sets| ==> |sets[k].0| <= 2
    ensures StageAgrees(s, fields, SetsAsWritten(s, fields, sets), SetOps(sets))
    decreases |sets|
  {
    if sets != [] {
      var (s1, r1) := SetStepAsWritten(s, fields, sets[0].0, sets[0].1);
      if r1.Pass? {
        SetsAgree(s1, fields, sets[1..]);
      }
    }
  }

  lemma {:induction false} PushesAgree(s: ModelState, fields: seq<Definition.FieldMeta>, pushes: seq<(Path, ArrayOp)>)
    requires s.mode == eOff && forall k :: 0 <= k < |pushes| ==> |pushes[k].0| <= 2
    ensures StageAgrees(s, fields, PushesAsWritten(s, fields, pushes), PushOps(pushes))
    decreases |pushes|
  {
    if pushes != [] {
      var (s1, r1) := PushStepAsWritten(s, fields, pushes[0].0, pushes[0].1);
      if r1.Pass? {
        PushesAgree(s1, fields, pushes[1..]);
      }
    }
  }

  lemma {:induction false} PullsAgree(s: ModelState, fields: seq<Definition.FieldMeta>, pulls: seq<(Path, ArrayOp)>)
    requires s.mode == eOff && forall k :: 0 <= k < |pulls| ==> |pulls[k].0| <= 2
    ensures StageAgrees(s, fields, PullsAsWritten(s, fields, pulls), PullOps(pulls))
    decreases |pulls|
  {
    if pulls != [] {
      var (s1, r1) := PullStepAsWritten(s, fields, pulls[0].0, pulls[0].1);
      if r1.Pass? {
        PullsAgree(s1, fields, pulls[1..]);
      }
    }
  }

  /**
   * On a mutable record and a patch without sub-indices, `applyUpdate` as
   * written succeeds exactly when the corrected replay does, and then leaves
   * the record holding the replayed payload.
   */
  lemma AsWrittenAgreesFlat(s: ModelState, fields: seq<Definition.FieldMeta>, u: Update)
    requires s.mode == eOff && FlatKeys(u)
    ensures AppliedAsWritten(s, fields, u).1.Pass? <==> ApplyToPayload(s.data.payload, fields, u).Ok?
    ensures AppliedAsWritten(s, fields, u).1.Pass? ==>
            AppliedAsWritten(s, fields, u).0 == s.(data := s.data.(payload := ApplyToPayload(s.data.payload, fields, u).value))
  {
    var p := s.data.payload;
    ApplyOpsAppend(p, fields, SetOps(u.sets) + PushOps(u.pushes), PullOps(u.pulls));
    ApplyOpsAppend(p, fields, SetOps(u.sets), PushOps(u.pushes));
    SetsAgree(s, fields, u.sets);
    var (s1, r1) := SetsAsWritten(s, fields, u.sets);
    if r1.Pass? {
      PushesAgree(s1, fields, u.pushes);
      var (s2, r2) := PushesAsWritten(s1, fields, u.pushes);
      if r2.Pass? {
        PullsAgree(s2, fields, u.pulls);
      }
    }
  }

  // ---------------------------------------------------------------------------
  // A nested `$set` (the `instanceof` test on the metadata record)
  //
  // The lemmas below are worked examples over one concrete payload (one
  // sub-model entry whose `n` changes from 1 to 2); they are not a proof of
  // the nested diff-then-apply round trip over all inputs.

  const IdField := Field.FieldDesc(2, "ID", FieldType.eString, false, [], Field.Plain)
  const CountField := Field.FieldDesc(3, "n", FieldType.eFloat, false, [], Field.Plain)
  const ItemsField := Field.FieldDesc(1, "items", FieldType.eSubModel, true, [], Field.Entries([("_id", IdField), ("n", CountField)]))
  const ItemsSchema := [Definition.FieldMeta(Definition.RootSegment, "items", ItemsField)]
  const OldItems := [Arr([Arr([Str("a"), Num(1.0)])])]
  const NewItems := [Arr([Arr([Str("a"), Num(2.0)])])]
  const NestedSet := Update([([0, 0, 1], Num(2.0))], [], [])

  /** Example: the sub-schema of the items field is the id slot, then `n`. */
  lemma ItemsSubFields()
    ensures Definition.SubFields(ItemsField)
            == [Definition.FieldMeta(Definition.RootSegment, "_id", IdField), Definition.FieldMeta(Definition.RootSegment, "n", CountField)]
  {
  }

  /** Example: the entry, diffed against its changed copy under `0.0`, gives the one `$set`. */
  lemma ItemsEntryDiff()
    ensures ObjectPatch(NoUpdates, [0, 0], [Str("a"), Num(1.0)], [Str("a"), Num(2.0)], Definition.SubFields(ItemsField)) == Ok(NestedSet)
  {
    ItemsSubFields();
    var sub := Definition.SubFields(ItemsField);
    var eo, en := [Str("a"), Num(1.0)], [Str("a"), Num(2.0)];
    assert [0, 0] + [0] == [0, 0, 0] && [0, 0] + [1] == [0, 0, 1];
    assert FieldPatch(NoUpdates, [0, 0, 0], Str("a"), Str("a"), IdField) == Ok(NoUpdates);
    assert FieldsPatch(NoUpdates, [0, 0], eo, en, sub, 1) == FieldsPatch(NestedSet, [0, 0], eo, en, sub, 2);
  }

  /** Example: the diff of the whole example record is that one `$set` at `0.0.1`. */
  lemma ItemsDiff()
    ensures Diff(OldItems, NewItems, ItemsSchema) == Ok(NestedSet)
  {
    ItemsEntryDiff();
    var sub := Definition.SubFields(ItemsField);
    var eo, en := Arr([Str("a"), Num(1.0)]), Arr([Str("a"), Num(2.0)]);
    assert Ids([en]) == [Str("a")] && Ids([eo]) == [Str("a")];
    assert IndexOf(Ids([en]), IdOf(eo)) == 0;
    assert [0] + [0] == [0, 0];
    assert EntriesPatch(NoUpdates, [0], [eo], [en], sub, 0) == EntriesPatch(NestedSet, [0], [eo], [en], sub, 1);
    assert SubPushes([eo], [en]) == [] && SubPulls([eo], [en]) == [];
    assert AllIndexable([eo]) && AllIndexable([en]);
    assert [] + [0] == [0];
    assert FieldPatch(NoUpdates, [0], OldItems[0], NewItems[0], ItemsField) == Ok(NestedSet);
  }

  /** Example: applying that `$set` with the corrected walk turns the old payload into the new one. */
  lemma ItemsReplay()
    ensures ApplyToPayload(OldItems, ItemsSchema, NestedSet) == Ok(NewItems)
  {
    ItemsSubFields();
    var sub := Definition.SubFields(ItemsField);
    assert Definition.FieldIndex(ItemsSchema, 1) == 0;
    assert sub[1].field.id == 3 && Definition.FieldIndex(sub, 3) == 1;
    assert Definition.SlotOf([Str("a"), Num(1.0)], 1) == Num(1.0);
    assert Definition.WriteAt([Str("a"), Num(1.0)], 1, Num(2.0)) == [Str("a"), Num(2.0)];
    assert AtPath([Str("a"), Num(1.0)], sub, [1], SetOp(Num(2.0))) == Ok([Str("a"), Num(2.0)]);
    assert [0, 0, 1][2..] == [1];
    assert ItemsSchema[0].field == ItemsField && ItemsField.id == 1;
    assert Definition.SlotOf(OldItems, 0) == Arr([Arr([Str("a"), Num(1.0)])]);
    assert EntryPayload(Arr([Str("a"), Num(1.0)])) == [Str("a"), Num(1.0)];
    assert [Arr([Str("a"), Num(1.0)])][0 := Arr([Str("a"), Num(2.0)])] == [Arr([Str("a"), Num(2.0)])];
    assert OldItems[0 := Arr([Arr([Str("a"), Num(2.0)])])] == NewItems;
    assert Definition.WriteAt(OldItems, 0, Arr([Arr([Str("a"), Num(2.0)])])) == NewItems;
    assert AtPath(OldItems, ItemsSchema, [0, 0, 1], SetOp(Num(2.0))) == Ok(NewItems);
    var ops := [([0, 0, 1], SetOp(Num(2.0)))];
    assert SetOps(NestedSet.sets) == ops;
    assert PushOps([]) == [] && PullOps([]) == [];
    assert ops + [] + [] == ops;
    assert ops[1..] == [];
    assert ApplyOps(OldItems, ItemsSchema, ops) == ApplyOps(NewItems, ItemsSchema, []);
  }

  /** Example: the corrected walk resolves `0.0.1` to the field `n` of entry 0 of `items`. */
  lemma ItemsResolve()
    ensures ResolveIndices(ItemsSchema, [0, 0, 1])
            == Ok(Resolved(CountField, [ItemsField, CountField], [Definition.RootSegment, "items", "0", Definition.RootSegment, "n"]))
  {
    ItemsSubFields();
    var sub := Definition.SubFields(ItemsField);
    assert [0, 0, 1][2..] == [1];
    assert ResolveIndices(sub, [1]) == Ok(Resolved(CountField, [CountField], [Definition.RootSegment, "n"]));
    assert Decimal(0) == "0";
    assert ItemsSchema[0].field == ItemsField && ItemsSchema[0].key == "items";
    assert ItemsField.fieldType == FieldType.eSubModel;
    assert [ItemsField] + [CountField] == [ItemsField, CountField];
    assert [Definition.RootSegment, "items", Decimal(0)] + [Definition.RootSegment, "n"]
        == [Definition.RootSegment, "items", "0", Definition.RootSegment, "n"];
  }

  /**
   * Changing field `n` of the one entry of a sub-model array gives the patch
   * `{$set: {"0.0.1": 2}}`. As written, `applyUpdate` throws on it at the
   * first key and leaves the record as it was, and `resolveIndicesString`
   * throws too; the corrected replay rebuilds the new payload and the
   * corrected resolver finds field `n` under key path `items.0.n`.
   */
  lemma NestedSetRejected(s: ModelState)
    ensures Diff(OldItems, NewItems, ItemsSchema) == Ok(NestedSet)
    ensures AppliedAsWritten(s, ItemsSchema, NestedSet) == (s, Fail(WrongFieldTypeMessage))
    ensures ResolveIndicesAsWritten(ItemsSchema, [0, 0, 1]) == Err(WrongFieldTypeMessage)
    ensures ApplyToPayload(OldItems, ItemsSchema, NestedSet) == Ok(NewItems)
    ensures ResolveIndices(ItemsSchema, [0, 0, 1])
            == Ok(Resolved(CountField, [ItemsField, CountField], [Definition.RootSegment, "items", "0", Definition.RootSegment, "n"]))
  {
    ItemsDiff();
    ItemsReplay();
    ItemsResolve();
  }
}
