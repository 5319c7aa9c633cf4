/**
 * The structural diff of two record payloads (src/patch/patch.ts). A
 * `DeepModelPatch` walks the oldObj and the newObj payload field by field and fills
 * three dictionaries keyed by paths of alternating field index and array
 * position: `$set` (a scalar that changed), `$push` and `$pull` (array
 * elements added and removed). Sub-model array entries are matched by the id
 * in their slot 0 and matched entries are diffed recursively.
 *
 * A path is kept as its list of numbers; the source joins it with dots.
 */
module Patch {
  import opened Wrappers
  import opened Values
  import opened Dict
  import opened FieldTypes
  import Field
  import Definition
  import Model

  type Path = seq<nat>

  datatype ArrayType = ePrimitive | eSubModel

  /** One pushed or pulled element: its position and its id (sub-model) or value (primitive). */
  datatype IdPos = IdPos(position: nat, idOrValue: Value)

  datatype ArrayOp = ArrayOp(dataType: ArrayType, idsAndPositions: seq<IdPos>)

  /** The three action dictionaries of a patch. */
  datatype Update = Update(sets: seq<(Path, Value)>, pushes: seq<(Path, ArrayOp)>, pulls: seq<(Path, ArrayOp)>)

  const NoUpdates := Update([], [], [])

  const SizeMessage := "objects must have same size"
  const DefinedMessage := "already defined"
  const NoFieldMessage := "Cannot read properties of undefined (reading 'field')"
  const NotArrayMessage := "map is not a function"

  // ---------------------------------------------------------------------------
  // Writing into the action dictionaries

  /** `_addToUpdate`: a path already holding a truthy value may not be written again. */
  function AddTo<V>(action: seq<(Path, V)>, path: Path, to: V, truthy: V -> bool): Result<seq<(Path, V)>>
  {
    var cur := LookupEntry(action, path);
    if cur.Some? && truthy(cur.value) then Err(DefinedMessage) else Ok(PutEntry(action, path, to))
  }

  /** `_set`. */
  function SetAt(u: Update, path: Path, v: Value): Result<Update>
  {
    var s := AddTo(u.sets, path, v, (x: Value) => Truthy(x));
    if s.Err? then Err(s.msg) else Ok(u.(sets := s.value))
  }

  /** The `$push` half of `_pushPull`: nothing for an empty list. */
  function PushAt(u: Update, path: Path, vals: seq<IdPos>, t: ArrayType): Result<Update>
  {
    if vals == [] then Ok(u)
    else
      var p := AddTo(u.pushes, path, ArrayOp(t, vals), (_: ArrayOp) => true);
      if p.Err? then Err(p.msg) else Ok(u.(pushes := p.value))
  }

  /** The `$pull` half of `_pushPull`: nothing for an empty list. */
  function PullAt(u: Update, path: Path, vals: seq<IdPos>, t: ArrayType): Result<Update>
  {
    if vals == [] then Ok(u)
    else
      var p := AddTo(u.pulls, path, ArrayOp(t, vals), (_: ArrayOp) => true);
      if p.Err? then Err(p.msg) else Ok(u.(pulls := p.value))
  }

  /** `_pushPull`: the push list, then the pull list. */
  function PushPull(u: Update, path: Path, push: seq<IdPos>, pull: seq<IdPos>, t: ArrayType): Result<Update>
  {
    var u1 := PushAt(u, path, push, t);
    if u1.Err? then u1 else PullAt(u1.value, path, pull, t)
  }

  // ---------------------------------------------------------------------------
  // The diff

  /**
   * The positions `p < n` whose key does not occur in `others`, in order, each
   * tagged with `vals[p]`.
   */
  function Unmatched(keys: seq<Value>, others: seq<Value>, vals: seq<Value>, n: nat): seq<IdPos>
    requires n <= |keys| == |vals|
  {
    if n == 0 then []
    else Unmatched(keys, others, vals, n - 1) + (if keys[n - 1] in others then [] else [IdPos(n - 1, vals[n - 1])])
  }

  /** The newObj entries whose id the oldObj array lacks, with their whole payload. */
  function SubPushes(oldItems: seq<Value>, newItems: seq<Value>): seq<IdPos>
  {
    Unmatched(Ids(newItems), Ids(oldItems), newItems, |newItems|)
  }

  /** The oldObj entries whose id the newObj array lacks, with their id. */
  function SubPulls(oldItems: seq<Value>, newItems: seq<Value>): seq<IdPos>
  {
    Unmatched(Ids(oldItems), Ids(newItems), Ids(oldItems), |oldItems|)
  }

  /** The newObj values the oldObj array lacks and the oldObj values the newObj array lacks. */
  function PrimitivePushes(oldItems: seq<Value>, newItems: seq<Value>): seq<IdPos>
  {
    Unmatched(newItems, oldItems, newItems, |newItems|)
  }

  function PrimitivePulls(oldItems: seq<Value>, newItems: seq<Value>): seq<IdPos>
  {
    Unmatched(oldItems, newItems, oldItems, |oldItems|)
  }

  /** `_addObjectPatch(prefix, oldObj, newObj, def)` applied to the dictionaries `u`. */
  function ObjectPatch(u: Update, prefix: Path, oldObj: seq<Value>, newObj: seq<Value>, fields: seq<Definition.FieldMeta>): Result<Update>
    decreases SizeItems(oldObj), 3, 0
  {
    if |oldObj| != |newObj| then Err(SizeMessage) else FieldsPatch(u, prefix, oldObj, newObj, fields, 0)
  }

  /** The loop over the fields, from field `i` on. */
  function FieldsPatch(u: Update, prefix: Path, oldObj: seq<Value>, newObj: seq<Value>, fields: seq<Definition.FieldMeta>, i: nat): Result<Update>
    requires |oldObj| == |newObj| && i <= |oldObj|
    decreases SizeItems(oldObj), 2, |oldObj| - i
  {
    if i == |oldObj| then Ok(u)
    else if i >= |fields| then Err(NoFieldMessage)
    else
      SizeItemsBound(oldObj, i);
      var r := FieldPatch(u, prefix + [i], oldObj[i], newObj[i], fields[i].field);
      if r.Err? then r else FieldsPatch(r.value, prefix, oldObj, newObj, fields, i + 1)
  }

  /** One field: entries matched by id, a set-style diff, or a `$set` when the value changed. */
  function FieldPatch(u: Update, path: Path, oldVal: Value, newVal: Value, f: Field.FieldDesc): Result<Update>
    decreases Size(oldVal), 1, 0
  {
    if f.fieldType == FieldType.eSubModel then
      if !newVal.Arr? || !oldVal.Arr? then Err(NotArrayMessage)
      else if !AllIndexable(newVal.items) || !AllIndexable(oldVal.items) then Err(ReadOfNullMessage)
      else
        var r := EntriesPatch(u, path, oldVal.items, newVal.items, Definition.SubFields(f), 0);
        if r.Err? then r
        else PushPull(r.value, path, SubPushes(oldVal.items, newVal.items), SubPulls(oldVal.items, newVal.items), ArrayType.eSubModel)
    else if f.isArray then
      if !newVal.Arr? || !oldVal.Arr? then Err(NotArrayMessage)
      else PushPull(u, path, PrimitivePushes(oldVal.items, newVal.items), PrimitivePulls(oldVal.items, newVal.items), ePrimitive)
    else if oldVal != newVal then SetAt(u, path, newVal)
    else Ok(u)
  }

  /** The loop over the oldObj entries, from entry `j` on: a matched entry is diffed under `path + [j]`. */
  function EntriesPatch(u: Update, path: Path, oldItems: seq<Value>, newItems: seq<Value>,
                        subFields: seq<Definition.FieldMeta>, j: nat): Result<Update>
    requires j <= |oldItems|
    decreases SizeItems(oldItems), 0, |oldItems| - j
  {
    if j == |oldItems| then Ok(u)
    else
      var k := IndexOf(Ids(newItems), IdOf(oldItems[j]));
      if k < 0 then EntriesPatch(u, path, oldItems, newItems, subFields, j + 1)
      else if !oldItems[j].Arr? || !newItems[k].Arr? then Err(NotArrayMessage)
      else
        SizeItemsBound(oldItems, j);
        var r := ObjectPatch(u, path + [j], oldItems[j].items, newItems[k].items, subFields);
        if r.Err? then r else EntriesPatch(r.value, path, oldItems, newItems, subFields, j + 1)
  }

  /** The patch from `oldObj` to `newObj` under the newObj record's definition. */
  function Diff(oldObj: seq<Value>, newObj: seq<Value>, fields: seq<Definition.FieldMeta>): Result<Update>
  {
    ObjectPatch(NoUpdates, [], oldObj, newObj, fields)
  }

  // ---------------------------------------------------------------------------
  // The patch object

  class DeepModelPatch {
    var updates: Update

    constructor Empty()
      ensures updates == NoUpdates
    {
      updates := NoUpdates;
    }

    /** The constructor: the diff of the two records' payloads; it throws on a mismatch. */
    static method New(oldObj: Model.DeepModel, newObj: Model.DeepModel) returns (r: Result<DeepModelPatch>)
      ensures r.Ok? <==> Diff(oldObj.data.payload, newObj.data.payload, newObj.fields).Ok?
      ensures r.Ok? ==> fresh(r.value) && r.value.updates == Diff(oldObj.data.payload, newObj.data.payload, newObj.fields).value
    {
      var p := new DeepModelPatch.Empty();
      var o := p.AddObjectPatch([], oldObj.data.payload, newObj.data.payload, newObj.fields);
      if o.Fail? {
        return Err(o.msg);
      }
      r := Ok(p);
    }

    function GetUpdates(): Update
      reads this
    {
      updates
    }

    method SetValue(path: Path, v: Value) returns (r: Outcome)
      modifies this
      ensures r.Pass? <==> SetAt(old(updates), path, v).Ok?
      ensures r.Pass? ==> updates == SetAt(old(updates), path, v).value
    {
      var cur := LookupEntry(updates.sets, path);
      if cur.Some? && Truthy(cur.value) {
        return Fail(DefinedMessage);
      }
      updates := updates.(sets := PutEntry(updates.sets, path, v));
      r := Pass;
    }

    method PushPullAt(path: Path, valPush: seq<IdPos>, valPull: seq<IdPos>, t: ArrayType) returns (r: Outcome)
      modifies this
      ensures r.Pass? <==> PushPull(old(updates), path, valPush, valPull, t).Ok?
      ensures r.Pass? ==> updates == PushPull(old(updates), path, valPush, valPull, t).value
    {
      if valPush != [] {
        if LookupEntry(updates.pushes, path).Some? {
          return Fail(DefinedMessage);
        }
        updates := updates.(pushes := PutEntry(updates.pushes, path, ArrayOp(t, valPush)));
      }
      if valPull != [] {
        if LookupEntry(updates.pulls, path).Some? {
          return Fail(DefinedMessage);
        }
        updates := updates.(pulls := PutEntry(updates.pulls, path, ArrayOp(t, valPull)));
      }
      r := Pass;
    }

    /** `_addObjectPatch`: the loops of the source, proved to compute `ObjectPatch`. */
    method AddObjectPatch(prefix: Path, oldObj: seq<Value>, newObj: seq<Value>, fields: seq<Definition.FieldMeta>) returns (r: Outcome)
      modifies this
      decreases SizeItems(oldObj)
      ensures r.Pass? <==> ObjectPatch(old(updates), prefix, oldObj, newObj, fields).Ok?
      ensures r.Pass? ==> updates == ObjectPatch(old(updates), prefix, oldObj, newObj, fields).value
    {
      if |oldObj| != |newObj| {
        return Fail(SizeMessage);
      }
      var i := 0;
      while i < |oldObj|
        invariant 0 <= i <= |oldObj|
        invariant FieldsPatch(updates, prefix, oldObj, newObj, fields, i) == ObjectPatch(old(updates), prefix, oldObj, newObj, fields)
      {
        if i >= |fields| {
          return Fail(NoFieldMessage);
        }
        SizeItemsBound(oldObj, i);
        r := AddFieldPatch(prefix + [i], oldObj[i], newObj[i], fields[i].field);
        if r.Fail? {
          return r;
        }
        i := i + 1;
      }
      r := Pass;
    }

    /** One pass of the loop in `_addObjectPatch`: the patch for the field at `path`. */
    method AddFieldPatch(path: Path, oldVal: Value, newVal: Value, f: Field.FieldDesc) returns (r: Outcome)
      modifies this
      decreases Size(oldVal), 1
      ensures r.Pass? <==> FieldPatch(old(updates), path, oldVal, newVal, f).Ok?
      ensures r.Pass? ==> updates == FieldPatch(old(updates), path, oldVal, newVal, f).value
    {
      if f.fieldType == FieldType.eSubModel {
        if !newVal.Arr? || !oldVal.Arr? {
          return Fail(NotArrayMessage);
        }
        var newIds := EntryIds(newVal.items);
        if newIds.Err? {
          return Fail(newIds.msg);
        }
        var oldIds := EntryIds(oldVal.items);
        if oldIds.Err? {
          return Fail(oldIds.msg);
        }
        r := SubModelPatch(path, oldVal.items, newVal.items, newIds.value, oldIds.value, Definition.SubFields(f));
      } else if f.isArray {
        if !newVal.Arr? || !oldVal.Arr? {
          return Fail(NotArrayMessage);
        }
        r := PushPullAt(path, PrimitivePushes(oldVal.items, newVal.items), PrimitivePulls(oldVal.items, newVal.items), ePrimitive);
      } else if oldVal != newVal {
        r := SetValue(path, newVal);
      } else {
        r := Pass;
      }
    }

    /** The sub-model branch of `_addObjectPatch`: the loop over oldObj entries, then the loop over newObj ones. */
    method SubModelPatch(path: Path, oldItems: seq<Value>, newItems: seq<Value>, newIds: seq<Value>, oldIds: seq<Value>,
                         subFields: seq<Definition.FieldMeta>)
      returns (r: Outcome)
      requires newIds == Ids(newItems) && oldIds == Ids(oldItems)
      modifies this
      decreases SizeItems(oldItems), 2
      ensures var e := EntriesPatch(old(updates), path, oldItems, newItems, subFields, 0);
              r.Pass? <==> e.Ok? && PushPull(e.value, path, SubPushes(oldItems, newItems), SubPulls(oldItems, newItems), ArrayType.eSubModel).Ok?
      ensures var e := EntriesPatch(old(updates), path, oldItems, newItems, subFields, 0);
              r.Pass? ==> updates == PushPull(e.value, path, SubPushes(oldItems, newItems), SubPulls(oldItems, newItems), ArrayType.eSubModel).value
    {
      var pullVals;
      r, pullVals := PatchEntries(path, oldItems, newItems, newIds, oldIds, subFields);
      if r.Fail? {
        return r;
      }
      var pushVals := NewEntries(oldIds, newItems);
      r := PushPullAt(path, pushVals, pullVals, ArrayType.eSubModel);
    }

    /** `items.map(el => el[0])`: the ids of the entries, throwing at the first null or undefined entry. */
    static method EntryIds(items: seq<Value>) returns (r: Result<seq<Value>>)
      ensures r.Ok? <==> AllIndexable(items)
      ensures r.Ok? ==> r.value == Ids(items)
      ensures r.Err? ==> r.msg == ReadOfNullMessage
    {
      var ids := [];
      var j := 0;
      while j < |items|
        invariant 0 <= j <= |items|
        invariant AllIndexable(items[..j]) && ids == Ids(items[..j])
      {
        if !Indexable(items[j]) {
          return Err(ReadOfNullMessage);
        }
        ids := ids + [IdOf(items[j])];
        j := j + 1;
      }
      assert items[..j] == items;
      r := Ok(ids);
    }

    /** The first loop of the sub-model branch: matched entries are diffed, the others collected to pull. */
    method PatchEntries(path: Path, oldItems: seq<Value>, newItems: seq<Value>, newIds: seq<Value>, oldIds: seq<Value>,
                        subFields: seq<Definition.FieldMeta>)
      returns (r: Outcome, pullVals: seq<IdPos>)
      requires newIds == Ids(newItems) && oldIds == Ids(oldItems)
      modifies this
      decreases SizeItems(oldItems), 1
      ensures r.Pass? <==> EntriesPatch(old(updates), path, oldItems, newItems, subFields, 0).Ok?
      ensures r.Pass? ==> updates == EntriesPatch(old(updates), path, oldItems, newItems, subFields, 0).value
      ensures r.Pass? ==> pullVals == SubPulls(oldItems, newItems)
    {
      pullVals := [];
      var j := 0;
      while j < |oldItems|
        invariant 0 <= j <= |oldItems|
        invariant EntriesPatch(updates, path, oldItems, newItems, subFields, j)
               == EntriesPatch(old(updates), path, oldItems, newItems, subFields, 0)
        invariant pullVals == Unmatched(oldIds, newIds, oldIds, j)
      {
        assert oldIds[j] == IdOf(oldItems[j]);
        var k := IndexOf(newIds, oldIds[j]);
        if k < 0 {
          pullVals := pullVals + [IdPos(j, oldIds[j])];
        }
        r := PatchEntry(path, oldItems, newItems, subFields, j, k);
        if r.Fail? {
          return;
        }
        j := j + 1;
      }
      r := Pass;
    }

    /** One pass of the first loop: the entry at `j`, whose id sits at `k` among the new ids (or is missing if `k < 0`). */
    method PatchEntry(path: Path, oldItems: seq<Value>, newItems: seq<Value>, subFields: seq<Definition.FieldMeta>, j: nat, k: int)
      returns (r: Outcome)
      requires j < |oldItems| && k == IndexOf(Ids(newItems), IdOf(oldItems[j]))
      modifies this
      decreases SizeItems(oldItems), 0
      ensures r.Fail? ==> EntriesPatch(old(updates), path, oldItems, newItems, subFields, j).Err?
      ensures r.Pass? ==> EntriesPatch(updates, path, oldItems, newItems, subFields, j + 1)
                          == EntriesPatch(old(updates), path, oldItems, newItems, subFields, j)
    {
      if k < 0 {
        return Pass;
      }
      if !oldItems[j].Arr? || !newItems[k].Arr? {
        return Fail(NotArrayMessage);
      }
      SizeItemsBound(oldItems, j);
      r := AddObjectPatch(path + [j], oldItems[j].items, newItems[k].items, subFields);
    }

    /** The second loop of the sub-model branch: the new entries whose id is not among `oldIds`. */
    static method NewEntries(oldIds: seq<Value>, newItems: seq<Value>) returns (pushVals: seq<IdPos>)
      ensures pushVals == Unmatched(Ids(newItems), oldIds, newItems, |newItems|)
    {
      pushVals := [];
      var j := 0;
      while j < |newItems|
        invariant 0 <= j <= |newItems|
        invariant pushVals == Unmatched(Ids(newItems), oldIds, newItems, j)
      {
        if IndexOf(oldIds, IdOf(newItems[j])) < 0 {
          pushVals := pushVals + [IdPos(j, newItems[j])];
        }
        j := j + 1;
      }
    }
  }
}
