/**
 * Replaying a patch onto a record (src/patch/patch.ts `applyUpdate`,
 * `getDeepFPtr`, `resolveIndicesString`). A path alternates field index and
 * entry position; its last component names the field written.
 *
 * As written, the two path walkers test `instanceof DescFieldSubModelArray`
 * on the field's metadata record (`{segmentKey, key, field}`), which is a
 * plain object and never such an instance, so every path that descends into
 * a sub-model entry throws. `resolveIndicesString` moreover keeps indexing the
 * root fields after descending. The corrected walkers test the field itself
 * and descend into the sub-model's fields; the corrected replay is stated on
 * the payload value.
 */
module PatchApply {
  import opened Wrappers
  import opened Values
  import opened Dict
  import opened FieldTypes
  import Field
  import Definition
  import opened Model
  import opened FieldPointer
  import opened Patch

  const WrongFieldTypeMessage := "Wrong field-type for sub-index, expected DescFSubModelArr"
  const NotPushableMessage := "push is not a function"
  const NotFilterableMessage := "filter is not a function"
  const NoChildMessage := "Cannot read properties of undefined (reading 'fPtr')"

  /** The `idOrValue`s of a push or pull list, in order. */
  function IdsOrValues(ips: seq<IdPos>): (vs: seq<Value>)
    ensures |vs| == |ips| && forall k :: 0 <= k < |ips| ==> vs[k] == ips[k].idOrValue
  {
    seq(|ips|, k requires 0 <= k < |ips| => ips[k].idOrValue)
  }

  /**
   * What a pull compares with the listed values: the element itself, or the
   * id in its slot 0 (`val[0]`, which throws on a null or undefined element;
   * the callers test that first).
   */
  function PullKey(t: ArrayType, x: Value): Value
  {
    if t == ArrayType.ePrimitive then x else IdOf(x)
  }

  /**
   * A sub-model pull reads `val[0]` of every element once the list of ids is
   * not empty, so it throws when some element is null or undefined.
   */
  predicate PullReadsNull(items: seq<Value>, t: ArrayType, ips: seq<IdPos>)
  {
    t == ArrayType.eSubModel && ips != [] && !AllIndexable(items)
  }

  /** `items.filter(val => !keys.some(k => k === key(val)))`. */
  function Without(items: seq<Value>, t: ArrayType, keys: seq<Value>): seq<Value>
  {
    if items == [] then []
    else (if PullKey(t, items[0]) in keys then [] else [items[0]]) + Without(items[1..], t, keys)
  }

  // ---------------------------------------------------------------------------
  // As written: `getDeepFPtr` and `applyUpdate` on a record

  /**
   * The payload slot of the pointer `getDeepFPtr` returns, as written: a path
   * with a sub-index throws at the `instanceof` test, the empty path (the key
   * `""`, whose one index parses to NaN) names no field and throws, a path of
   * one or two components names the root field `path[0]`, and the pointer
   * resolves that field's slot through `getFieldIndex`.
   */
  function PointerAsWritten(fields: seq<Definition.FieldMeta>, path: Path): Result<nat>
  {
    if |path| > 2 then Err(WrongFieldTypeMessage)
    else if path == [] || path[0] >= |fields| then Err(NoFieldMessage)
    else
      var m := path[0];
      var i := Definition.FieldIndex(fields, fields[m].field.id);
      assert i != -1 by { assert fields[m].field.id == fields[m].field.id; }
      Ok(i as nat)
  }

  /** One `$set` entry: `getDeepFPtr(path).set(v)`, which follows the record's mode. */
  function SetStepAsWritten(s: ModelState, fields: seq<Definition.FieldMeta>, path: Path, v: Value): (ModelState, Outcome)
  {
    var p := PointerAsWritten(fields, path);
    if p.Err? then (s, Fail(p.msg)) else UpdateStep(s, p.value, v)
  }

  /** One `$push` entry: `get().push(...)` appends to the array in the payload itself, whatever the mode. */
  function PushStepAsWritten(s: ModelState, fields: seq<Definition.FieldMeta>, path: Path, op: ArrayOp): (ModelState, Outcome)
  {
    var p := PointerAsWritten(fields, path);
    if p.Err? then (s, Fail(p.msg))
    else
      var cur := ValueAt(s.data.payload, p.value);
      if !cur.Arr? then (s, Fail(NotPushableMessage))
      else (s.(data := Written(s.data, p.value, Arr(cur.items + IdsOrValues(op.idsAndPositions)))), Pass)
  }

  /** One `$pull` entry: `set(get().filter(...))`. */
  function PullStepAsWritten(s: ModelState, fields: seq<Definition.FieldMeta>, path: Path, op: ArrayOp): (ModelState, Outcome)
  {
    var p := PointerAsWritten(fields, path);
    if p.Err? then (s, Fail(p.msg))
    else
      var cur := ValueAt(s.data.payload, p.value);
      if !cur.Arr? then (s, Fail(NotFilterableMessage))
      else if PullReadsNull(cur.items, op.dataType, op.idsAndPositions) then (s, Fail(ReadOfNullMessage))
      else UpdateStep(s, p.value, Arr(Without(cur.items, op.dataType, IdsOrValues(op.idsAndPositions))))
  }

  function SetsAsWritten(s: ModelState, fields: seq<Definition.FieldMeta>, sets: seq<(Path, Value)>): (ModelState, Outcome)
    decreases |sets|
  {
    if sets == [] then (s, Pass)
    else
      var (s1, r1) := SetStepAsWritten(s, fields, sets[0].0, sets[0].1);
      if r1.Fail? then (s1, r1) else SetsAsWritten(s1, fields, sets[1..])
  }

  function PushesAsWritten(s: ModelState, fields: seq<Definition.FieldMeta>, pushes: seq<(Path, ArrayOp)>): (ModelState, Outcome)
    decreases |pushes|
  {
    if pushes == [] then (s, Pass)
    else
      var (s1, r1) := PushStepAsWritten(s, fields, pushes[0].0, pushes[0].1);
      if r1.Fail? then (s1, r1) else PushesAsWritten(s1, fields, pushes[1..])
  }

  function PullsAsWritten(s: ModelState, fields: seq<Definition.FieldMeta>, pulls: seq<(Path, ArrayOp)>): (ModelState, Outcome)
    decreases |pulls|
  {
    if pulls == [] then (s, Pass)
    else
      var (s1, r1) := PullStepAsWritten(s, fields, pulls[0].0, pulls[0].1);
      if r1.Fail? then (s1, r1) else PullsAsWritten(s1, fields, pulls[1..])
  }

  /** `applyUpdate` as written: every `$set`, then every `$push`, then every `$pull`; the first throw ends it. */
  function AppliedAsWritten(s: ModelState, fields: seq<Definition.FieldMeta>, u: Update): (ModelState, Outcome)
  {
    var (s1, r1) := SetsAsWritten(s, fields, u.sets);
    if r1.Fail? then (s1, r1)
    else
      var (s2, r2) := PushesAsWritten(s1, fields, u.pushes);
      if r2.Fail? then (s2, r2) else PullsAsWritten(s2, fields, u.pulls)
  }

  /** `getDeepFPtr`, as written: the walk over the path in steps of two. */
  method GetDeepFPtr(path: Path, model: DeepModel) returns (r: Result<FPtr>)
    ensures r.Ok? <==> PointerAsWritten(model.fields, path).Ok?
    ensures r.Err? ==> r.msg == PointerAsWritten(model.fields, path).msg
    ensures r.Ok? ==> fresh(r.value) && r.value.model == model && r.value.index == PointerAsWritten(model.fields, path).value
  {
    var fields := model.fields;
    if path == [] {
      // the key `""` splits into one NaN index, and `fields[NaN]` is undefined
      return Err(NoFieldMessage);
    }
    var meta: Option<Definition.FieldMeta> := if |fields| > 0 then Some(fields[0]) else None;
    var i := 0;
    while i < |path|
      invariant i == 0 || (i == 2 && 1 <= |path| <= 2)
      invariant i == 0 ==> meta == if |fields| > 0 then Some(fields[0]) else None
      invariant i == 2 ==> meta == if path[0] < |fields| then Some(fields[path[0]]) else None
    {
      meta := if path[i] < |fields| then Some(fields[path[i]]) else None;
      if i < |path| - 2 {
        // `fieldMeta instanceof DescFieldSubModelArray`: a metadata record never is one
        return Err(WrongFieldTypeMessage);
      }
      i := i + 2;
    }
    if meta.None? {
      return Err(NoFieldMessage);
    }
    var ptr := new FPtr(model, meta.value.field.id);
    return Ok(ptr);
  }

  /** `applyUpdate(updates, model)`, as written. */
  method ApplyUpdate(u: Update, model: DeepModel) returns (r: Outcome)
    modifies model
    ensures (model.State(), r) == AppliedAsWritten(old(model.State()), model.fields, u)
  {
    r := ApplySets(u.sets, model);
    if r.Fail? {
      return;
    }
    r := ApplyPushes(u.pushes, model);
    if r.Fail? {
      return;
    }
    r := ApplyPulls(u.pulls, model);
  }

  /** The `$set` loop of `applyUpdate`. */
  method ApplySets(sets: seq<(Path, Value)>, model: DeepModel) returns (r: Outcome)
    modifies model
    ensures (model.State(), r) == SetsAsWritten(old(model.State()), model.fields, sets)
  {
    var k := 0;
    while k < |sets|
      invariant 0 <= k <= |sets|
      invariant SetsAsWritten(model.State(), model.fields, sets[k..]) == SetsAsWritten(old(model.State()), model.fields, sets)
    {
      assert sets[k..][1..] == sets[k + 1..];
      var p := GetDeepFPtr(sets[k].0, model);
      if p.Err? {
        return Fail(p.msg);
      }
      r := p.value.Set(sets[k].1);
      if r.Fail? {
        return;
      }
      k := k + 1;
    }
    r := Pass;
  }

  /** The `$push` loop of `applyUpdate`: the array in the payload grows in place. */
  method ApplyPushes(pushes: seq<(Path, ArrayOp)>, model: DeepModel) returns (r: Outcome)
    modifies model
    ensures (model.State(), r) == PushesAsWritten(old(model.State()), model.fields, pushes)
  {
    var k := 0;
    while k < |pushes|
      invariant 0 <= k <= |pushes|
      invariant PushesAsWritten(model.State(), model.fields, pushes[k..]) == PushesAsWritten(old(model.State()), model.fields, pushes)
    {
      assert pushes[k..][1..] == pushes[k + 1..];
      var p := GetDeepFPtr(pushes[k].0, model);
      if p.Err? {
        return Fail(p.msg);
      }
      var cur := p.value.Get();
      if !cur.Arr? {
        return Fail(NotPushableMessage);
      }
      model.data := Written(model.data, p.value.index, Arr(cur.items + IdsOrValues(pushes[k].1.idsAndPositions)));
      k := k + 1;
    }
    r := Pass;
  }

  /** The `$pull` loop of `applyUpdate`. */
  method ApplyPulls(pulls: seq<(Path, ArrayOp)>, model: DeepModel) returns (r: Outcome)
    modifies model
    ensures (model.State(), r) == PullsAsWritten(old(model.State()), model.fields, pulls)
  {
    var k := 0;
    while k < |pulls|
      invariant 0 <= k <= |pulls|
      invariant PullsAsWritten(model.State(), model.fields, pulls[k..]) == PullsAsWritten(old(model.State()), model.fields, pulls)
    {
      assert pulls[k..][1..] == pulls[k + 1..];
      var p := GetDeepFPtr(pulls[k].0, model);
      if p.Err? {
        return Fail(p.msg);
      }
      var cur := p.value.Get();
      if !cur.Arr? {
        return Fail(NotFilterableMessage);
      }
      var op := pulls[k].1;
      if PullReadsNull(cur.items, op.dataType, op.idsAndPositions) {
        return Fail(ReadOfNullMessage);
      }
      r := p.value.Set(Arr(Without(cur.items, op.dataType, IdsOrValues(op.idsAndPositions))));
      if r.Fail? {
        return;
      }
      k := k + 1;
    }
    r := Pass;
  }

  // ---------------------------------------------------------------------------
  // As written: `resolveIndicesString`

  /** The field a path names, the fields along it, and the document keys leading to it. */
  datatype Resolved = Resolved(field: Field.FieldDesc, fieldPath: seq<Field.FieldDesc>, keyPath: seq<string>)

  /** `resolveIndicesString`, as written: it throws at the `instanceof` test on any path with a sub-index. */
  function ResolveIndicesAsWritten(fields: seq<Definition.FieldMeta>, path: Path): Result<Resolved>
  {
    if |path| > 2 then Err(WrongFieldTypeMessage)
    else if path == [] || path[0] >= |fields| then Err(NoFieldMessage)
    else
      var meta := fields[path[0]];
      Ok(Resolved(meta.field, [meta.field], [meta.segmentKey, meta.key]))
  }

  // ---------------------------------------------------------------------------
  // Corrected: the walkers descend into sub-model entries

  /** `n.toString(10)`. */
  function Decimal(n: nat): string
  {
    if n < 10 then [['0', '1', '2', '3', '4', '5', '6', '7', '8', '9'][n]]
    else Decimal(n / 10) + Decimal(n % 10)
  }

  /**
   * `resolveIndicesString` with the `instanceof` test on the field and the
   * lookup in the sub-model's own fields: every pair (field, position) adds
   * the field, its segment and key, and the position.
   */
  function ResolveIndices(fields: seq<Definition.FieldMeta>, path: Path): Result<Resolved>
    decreases |path|
  {
    if |path| <= 2 then ResolveIndicesAsWritten(fields, path)
    else if path[0] >= |fields| then Err(NoFieldMessage)
    else
      var meta := fields[path[0]];
      if meta.field.fieldType != FieldType.eSubModel then Err(WrongFieldTypeMessage)
      else
        var r := ResolveIndices(Definition.SubFields(meta.field), path[2..]);
        if r.Err? then r
        else Ok(Resolved(r.value.field, [meta.field] + r.value.fieldPath,
                         [meta.segmentKey, meta.key, Decimal(path[1])] + r.value.keyPath))
  }

  /** What one action does to the value in a slot. */
  datatype SlotOp = SetOp(v: Value) | PushOp(vals: seq<Value>) | PullOp(t: ArrayType, keys: seq<Value>)

  function ApplyOp(cur: Value, op: SlotOp): Result<Value>
  {
    match op
    case SetOp(v) => Ok(v)
    case PushOp(vals) => if cur.Arr? then Ok(Arr(cur.items + vals)) else Err(NotPushableMessage)
    case PullOp(t, keys) =>
      if !cur.Arr? then Err(NotFilterableMessage)
      else if t == ArrayType.eSubModel && keys != [] && !AllIndexable(cur.items) then Err(ReadOfNullMessage)
      else Ok(Arr(Without(cur.items, t, keys)))
  }

  /**
   * The corrected `getDeepFPtr` followed by one action, on the payload: a
   * pair (sub-model field, position) descends into that entry, whose new
   * payload is written back into the field's array.
   */
  function AtPath(payload: seq<Value>, fields: seq<Definition.FieldMeta>, path: Path, op: SlotOp): Result<seq<Value>>
    decreases |path|
  {
    if path == [] || path[0] >= |fields| then Err(NoFieldMessage)
    else
      var m := path[0];
      var i := Definition.FieldIndex(fields, fields[m].field.id);
      assert i != -1 by { assert fields[m].field.id == fields[m].field.id; }
      var cur := Definition.SlotOf(payload, i as nat);
      if |path| <= 2 then
        var v := ApplyOp(cur, op);
        if v.Err? then Err(v.msg) else Ok(Definition.WriteAt(payload, i as nat, v.value))
      else if fields[m].field.fieldType != FieldType.eSubModel then Err(WrongFieldTypeMessage)
      else if cur.Arr? && !AllIndexable(cur.items) then Err(ReadOfNullMessage)
      else if !cur.Arr? || path[1] >= |cur.items| then Err(NoChildMessage)
      else
        var inner := AtPath(EntryPayload(cur.items[path[1]]), Definition.SubFields(fields[m].field), path[2..], op);
        if inner.Err? then inner
        else Ok(Definition.WriteAt(payload, i as nat, Arr(cur.items[path[1] := Arr(inner.value)])))
  }

  /** The actions in order; the first failure ends the replay. */
  function ApplyOps(payload: seq<Value>, fields: seq<Definition.FieldMeta>, ops: seq<(Path, SlotOp)>): Result<seq<Value>>
    decreases |ops|
  {
    if ops == [] then Ok(payload)
    else
      var r := AtPath(payload, fields, ops[0].0, ops[0].1);
      if r.Err? then r else ApplyOps(r.value, fields, ops[1..])
  }

  function SetOps(sets: seq<(Path, Value)>): seq<(Path, SlotOp)>
  {
    if sets == [] then [] else [(sets[0].0, SetOp(sets[0].1))] + SetOps(sets[1..])
  }

  function PushOps(pushes: seq<(Path, ArrayOp)>): seq<(Path, SlotOp)>
  {
    if pushes == [] then [] else [(pushes[0].0, PushOp(IdsOrValues(pushes[0].1.idsAndPositions)))] + PushOps(pushes[1..])
  }

  function PullOps(pulls: seq<(Path, ArrayOp)>): seq<(Path, SlotOp)>
  {
    if pulls == []
    then []
    else [(pulls[0].0, PullOp(pulls[0].1.dataType, IdsOrValues(pulls[0].1.idsAndPositions)))] + PullOps(pulls[1..])
  }

  /** The corrected `applyUpdate` on a payload: every `$set`, then every `$push`, then every `$pull`. */
  function ApplyToPayload(payload: seq<Value>, fields: seq<Definition.FieldMeta>, u: Update): Result<seq<Value>>
  {
    ApplyOps(payload, fields, SetOps(u.sets) + PushOps(u.pushes) + PullOps(u.pulls))
  }
}
