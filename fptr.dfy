/**
 * Field pointers (src/model/fPtr.ts, src/model/fPtrSub.ts): get and set one
 * payload slot of a record, the slot being resolved once from the field, and
 * the child-list operations of a sub-model array field. Every write goes
 * through the record's `updatePayload`, so it follows the record's mode.
 *
 * The fresh id of a pushed child (`generateID`) and the callbacks' writes are
 * parameters.
 */
module FieldPointer {
  import opened Wrappers
  import opened Values
  import Field
  import Definition
  import opened Model

  /** `payload.get(index)`: undefined outside the payload. */
  function ValueAt(payload: seq<Value>, index: int): (v: Value)
    ensures 0 <= index < |payload| ==> v == payload[index]
    ensures !(0 <= index < |payload|) ==> v == Undef
  {
    if 0 <= index < |payload| then payload[index] else Undef
  }

  /**
   * The payload a sub-model entry record is built over: the entry's own
   * array. A null or undefined entry never gets here, the record's id
   * (`payload[0]`) throwing first; any other non-array entry is modelled as an
   * empty payload.
   */
  function EntryPayload(entry: Value): seq<Value>
  {
    if entry.Arr? then entry.items else []
  }

  /** The pushed entry: the sub-definition's defaults, the fresh id in slot 0, then the callback's writes. */
  function NewEntry(defaults: seq<Value>, freshId: Value, edits: seq<Write>): seq<Value>
  {
    Overwrite(Definition.WriteAt(defaults, 0, freshId), edits)
  }

  /**
   * `copy.splice(i, 1)` on a copy: the element at the start removed, if there
   * is one. A negative start counts from the end and is clamped at 0.
   */
  function RemoveAt(items: seq<Value>, i: int): (r: seq<Value>)
    ensures 0 <= i < |items| ==> |r| == |items| - 1 && r[..i] == items[..i] && r[i..] == items[i + 1..]
    ensures i >= |items| ==> r == items
    ensures -|items| <= i < 0 ==> r == items[..|items| + i] + items[|items| + i + 1..]
    ensures i < -|items| ==> r == if items == [] then [] else items[1..]
  {
    var start := if i >= 0 then i else if |items| + i >= 0 then |items| + i else 0;
    if start < |items| then items[..start] + items[start + 1..] else items
  }

  /** `pushChild`: the field's array with one entry appended, written through `set`. */
  function PushStep(s: ModelState, index: nat, defaults: seq<Value>, freshId: Value, edits: seq<Write>): (ModelState, Outcome)
  {
    var cur := ValueAt(s.data.payload, index);
    if !cur.Arr? then (s, Fail("spread of a non-iterable"))
    else UpdateStep(s, index, Arr(cur.items + [Arr(NewEntry(defaults, freshId, edits))]))
  }

  /** `pullChild(i)`: the field's array without its i-th entry, written through `set`. */
  function PullStep(s: ModelState, index: nat, i: int): (ModelState, Outcome)
  {
    var cur := ValueAt(s.data.payload, index);
    if !cur.Arr? then (s, Fail("slice of a non-array"))
    else UpdateStep(s, index, Arr(RemoveAt(cur.items, i)))
  }

  /** The state of the i-th child record of a record in `mode`, as `subModelFor` builds it. */
  function ChildStart(mode: Mode, entry: Value): ModelState
  {
    var init := Initial(DataFromArray(EntryPayload(entry)));
    if mode != eOff then ImmutableStep(init) else init
  }

  /**
   * `updateChild(i, cb)` with `cb` performing `writes` on the i-th child
   * record. Only an immutable record's child has a callback: its first
   * delivery writes the changed entry back into the field through `set`.
   */
  function UpdateChildStep(s: ModelState, index: nat, i: nat, writes: seq<Write>): (ModelState, Outcome)
  {
    var cur := ValueAt(s.data.payload, index);
    if !cur.Arr? then (s, Fail("map of a non-array"))
    else if !AllIndexable(cur.items) then (s, Fail(ReadOfNullMessage))
    else if i >= |cur.items| then (s, if writes == [] then Pass else Fail("callback on an undefined child"))
    else
      var (c, r1) := WritesStep(ChildStart(s.mode, cur.items[i]), writes);
      if c.delivered == [] then (s, r1)
      else
        var (s2, r2) := UpdateStep(s, index, Arr(cur.items[i := Arr(c.delivered[0].payload)]));
        (s2, if r2.Fail? then r2 else r1)
  }

  // ---------------------------------------------------------------------------
  // Properties

  /**
   * Past the last entry the callback receives `undefined`: a callback that
   * does nothing returns normally, one that writes throws, and the record is
   * unchanged either way (unless some entry is null or undefined, which
   * throws before the callback runs).
   */
  lemma UpdateChildPastEnd(s: ModelState, index: nat, i: nat, writes: seq<Write>)
    requires ValueAt(s.data.payload, index).Arr? && i >= |ValueAt(s.data.payload, index).items|
    ensures UpdateChildStep(s, index, i, writes).0 == s
    ensures UpdateChildStep(s, index, i, writes).1.Pass? <==> writes == [] && AllIndexable(ValueAt(s.data.payload, index).items)
  {
  }

  /**
   * Building the child records reads every entry's id, so one null or
   * undefined entry makes `updateChild` throw, whichever child it names, and
   * the record is unchanged.
   */
  lemma UpdateChildNullThrows(s: ModelState, index: nat, i: nat, writes: seq<Write>, j: nat)
    requires ValueAt(s.data.payload, index).Arr? && j < |ValueAt(s.data.payload, index).items|
    requires !Indexable(ValueAt(s.data.payload, index).items[j])
    ensures UpdateChildStep(s, index, i, writes) == (s, Fail(ReadOfNullMessage))
  {
  }

  /** `set` then `get` on a mutable record returns the value just set. */
  lemma SetThenGet(s: ModelState, index: nat, v: Value)
    requires s.mode == eOff
    ensures ValueAt(UpdateStep(s, index, v).0.data.payload, index) == v
    ensures UpdateStep(s, index, v).1 == Pass
  {
  }

  /** Without edits the pushed entry is the defaults with the fresh id in slot 0. */
  lemma NewEntryDefaults(defaults: seq<Value>, freshId: Value)
    requires |defaults| >= 1
    ensures |NewEntry(defaults, freshId, [])| == |defaults|
    ensures NewEntry(defaults, freshId, [])[0] == freshId
    ensures NewEntry(defaults, freshId, [])[1..] == defaults[1..]
  {
  }

  /**
   * On a mutable record `pushChild` appends exactly one entry to the field
   * and keeps the earlier entries.
   */
  lemma PushAppends(s: ModelState, index: nat, defaults: seq<Value>, freshId: Value, edits: seq<Write>)
    requires s.mode == eOff
    requires ValueAt(s.data.payload, index).Arr?
    ensures PushStep(s, index, defaults, freshId, edits).1 == Pass
    ensures ValueAt(PushStep(s, index, defaults, freshId, edits).0.data.payload, index)
            == Arr(ValueAt(s.data.payload, index).items + [Arr(NewEntry(defaults, freshId, edits))])
  {
  }

  /** On a mutable record `pullChild(i)` removes the i-th entry and keeps the rest in order. */
  lemma PullRemoves(s: ModelState, index: nat, i: nat)
    requires s.mode == eOff
    requires ValueAt(s.data.payload, index).Arr? && i < |ValueAt(s.data.payload, index).items|
    ensures PullStep(s, index, i).1 == Pass
    ensures ValueAt(PullStep(s, index, i).0.data.payload, index)
            == Arr(ValueAt(s.data.payload, index).items[..i] + ValueAt(s.data.payload, index).items[i + 1..])
  {
  }

  /** On a mutable record `pullChild(-k)` removes the k-th entry from the end, as `splice` counts. */
  lemma PullCountsFromEnd(s: ModelState, index: nat, k: nat)
    requires s.mode == eOff
    requires ValueAt(s.data.payload, index).Arr? && 0 < k <= |ValueAt(s.data.payload, index).items|
    ensures PullStep(s, index, -(k as int)).1 == Pass
    ensures var items := ValueAt(s.data.payload, index).items;
            ValueAt(PullStep(s, index, -(k as int)).0.data.payload, index) == Arr(items[..|items| - k] + items[|items| - k + 1..])
  {
  }

  /**
   * The child of a mutable record has no callback: writes made through
   * `updateChild` change only that throwaway child and never reach the field.
   */
  lemma {:induction false} UpdateChildLostWhenMutable(s: ModelState, index: nat, i: nat, writes: seq<Write>)
    requires s.mode == eOff
    ensures UpdateChildStep(s, index, i, writes).0 == s
  {
    var cur := ValueAt(s.data.payload, index);
    if cur.Arr? && i < |cur.items| {
      OffWrites(ChildStart(s.mode, cur.items[i]), writes);
    }
  }

  /**
   * On an immutable record with an unused callback, one write through
   * `updateChild` reaches the record's callback as a clone whose field holds
   * the changed entry in place of the old one.
   */
  lemma UpdateChildWritesBack(s: ModelState, index: nat, i: nat, slot: nat, v: Value)
    requires s.mode == eOn && s.listener == Armed
    requires ValueAt(s.data.payload, index).Arr? && i < |ValueAt(s.data.payload, index).items|
    requires AllIndexable(ValueAt(s.data.payload, index).items)
    ensures UpdateChildStep(s, index, i, [(slot, v)]).1 == Pass
    ensures UpdateChildStep(s, index, i, [(slot, v)]).0.data == s.data
    ensures UpdateChildStep(s, index, i, [(slot, v)]).0.delivered == s.delivered + [
      Written(s.data, index, Arr(ValueAt(s.data.payload, index).items[i :=
        Arr(Definition.WriteAt(EntryPayload(ValueAt(s.data.payload, index).items[i]), slot, v))]))]
  {
    var cur := ValueAt(s.data.payload, index);
    var c0 := ChildStart(s.mode, cur.items[i]);
    var c1 := UpdateStep(c0, slot, v).0;
    assert WritesStep(c0, [(slot, v)]) == WritesStep(c1, []);
    assert c1.delivered == [Written(c0.data, slot, v)];
  }

  /** A child callback is one-shot too: a second write through `updateChild` on an immutable record throws. */
  lemma UpdateChildSecondWriteThrows(s: ModelState, index: nat, i: nat, writes: seq<Write>)
    requires s.mode != eOff && |writes| >= 2
    ensures UpdateChildStep(s, index, i, writes).1.Fail?
  {
    var cur := ValueAt(s.data.payload, index);
    if cur.Arr? && i < |cur.items| {
      var c0 := ChildStart(s.mode, cur.items[i]);
      var c1 := UpdateStep(c0, writes[0].0, writes[0].1).0;
      assert writes[1..][0] == writes[1];
      assert UpdateStep(c1, writes[1].0, writes[1].1).1.Fail?;
      assert WritesStep(c0, writes).1.Fail?;
      assert WritesStep(c0, writes).0 == c1;
    }
  }

  // ---------------------------------------------------------------------------
  // The pointer objects

  /** `DeepModelFPtr`: a record and the slot of one field, resolved at construction. */
  class FPtr {
    const model: DeepModel
    const index: int

    constructor (model: DeepModel, fieldId: nat)
      ensures this.model == model
      ensures index == Definition.FieldIndex(model.fields, fieldId)
    {
      this.model := model;
      index := Definition.FieldIndex(model.fields, fieldId);
    }

    function Get(): Value
      reads model
    {
      ValueAt(model.data.payload, index)
    }

    /** `set`: `updatePayload` at the resolved slot. */
    method Set(v: Value) returns (r: Outcome)
      requires index >= 0
      modifies model
      ensures (model.State(), r) == UpdateStep(old(model.State()), index, v)
    {
      r := model.UpdatePayload(index, v);
    }
  }

  /** `DeepModelFPtrSub`: a pointer to a sub-model array field. */
  class FPtrSub {
    const model: DeepModel
    const index: int
    const field: Field.FieldDesc
    const subFields: seq<Definition.FieldMeta>
    const subDefaults: seq<Value>

    /** The field's sub-definition was activated when the field was built, so its defaults exist. */
    constructor (model: DeepModel, field: Field.FieldDesc)
      requires field.sub.Entries? && Definition.Defaults(Definition.SubFields(field)).Ok?
      ensures this.model == model && this.field == field
      ensures index == Definition.FieldIndex(model.fields, field.id)
      ensures subFields == Definition.SubFields(field)
      ensures subDefaults == Definition.Defaults(subFields).value
    {
      this.model := model;
      this.field := field;
      index := Definition.FieldIndex(model.fields, field.id);
      subFields := Definition.SubFields(field);
      subDefaults := Definition.Defaults(Definition.SubFields(field)).value;
    }

    function Get(): Value
      reads model
    {
      ValueAt(model.data.payload, index)
    }

    method PushChild(freshId: Value, edits: seq<Write>) returns (r: Outcome)
      modifies model
      ensures index >= 0 ==> (model.State(), r) == PushStep(old(model.State()), index, subDefaults, freshId, edits)
      ensures index < 0 ==> r.Fail? && model.State() == old(model.State())
    {
      var data := subDefaults;
      data := Definition.WriteAt(data, 0, freshId);
      var tmp := DeepModel.FromDataArray(data, subFields);
      OffWrites(tmp.State(), edits);
      var rw := tmp.RunWrites(edits);
      data := tmp.data.payload;
      var cur := Get();
      if !cur.Arr? {
        return Fail("spread of a non-iterable");
      }
      r := model.UpdatePayload(index, Arr(cur.items + [Arr(data)]));
    }

    method PullChild(i: int) returns (r: Outcome)
      modifies model
      ensures index >= 0 ==> (model.State(), r) == PullStep(old(model.State()), index, i)
      ensures index < 0 ==> r.Fail? && model.State() == old(model.State())
    {
      var cur := Get();
      if !cur.Arr? {
        return Fail("slice of a non-array");
      }
      var copy := cur.items;
      var start := i;
      if start < 0 {
        start := |copy| + start;
        if start < 0 {
          start := 0;
        }
      }
      if start < |copy| {
        copy := copy[..start] + copy[start + 1..];
      }
      r := model.UpdatePayload(index, Arr(copy));
    }

    /**
     * `getChildModels`: one record per entry, in order, each over that
     * entry's payload; a null or undefined entry throws at its id.
     */
    method GetChildModels() returns (r: Result<seq<DeepModel>>)
      ensures !Get().Arr? ==> r == Err("map of a non-array")
      ensures Get().Arr? ==> (r.Ok? <==> AllIndexable(Get().items))
      ensures Get().Arr? && r.Err? ==> r.msg == ReadOfNullMessage
      ensures r.Ok? ==> |r.value| == |Get().items|
      ensures r.Ok? ==> forall k :: 0 <= k < |r.value| ==>
        fresh(r.value[k]) && r.value[k].fields == subFields
        && r.value[k].State() == ChildStart(model.mode, Get().items[k])
    {
      var cur := Get();
      if !cur.Arr? {
        return Err("map of a non-array");
      }
      var children: seq<DeepModel> := [];
      var k := 0;
      while k < |cur.items|
        invariant 0 <= k <= |cur.items| && |children| == k && Get() == cur
        invariant forall j :: 0 <= j < k ==> Indexable(cur.items[j])
        invariant forall j :: 0 <= j < k ==>
          fresh(children[j]) && children[j].fields == subFields
          && children[j].State() == ChildStart(model.mode, cur.items[j])
      {
        if !Indexable(cur.items[k]) {
          return Err(ReadOfNullMessage);
        }
        var child := model.SubModelFor(EntryPayload(cur.items[k]), subFields);
        children := children + [child];
        k := k + 1;
      }
      return Ok(children);
    }

    method UpdateChild(i: nat, writes: seq<Write>) returns (r: Outcome)
      modifies model
      ensures index >= 0 ==> (model.State(), r) == UpdateChildStep(old(model.State()), index, i, writes)
      ensures index < 0 ==> r.Fail? && model.State() == old(model.State())
    {
      var children := GetChildModels();
      if children.Err? {
        return Fail(children.msg);
      }
      if i >= |children.value| {
        // `cb(undefined)` throws only once it touches the missing child
        return if writes == [] then Pass else Fail("callback on an undefined child");
      }
      var child := children.value[i];
      var r1 := child.RunWrites(writes);
      if child.delivered == [] {
        return r1;
      }
      var cur := Get();
      var r2 := model.UpdatePayload(index, Arr(cur.items[i := Arr(child.delivered[0].payload)]));
      r := if r2.Fail? then r2 else r1;
    }
  }
}
