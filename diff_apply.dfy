/**
 * Diff, then apply. On a schema without sub-model fields, replaying the
 * patch from one payload to another on the first payload gives back the
 * second one: every scalar slot equals the target's, and every primitive
 * array holds exactly the target's values. The array is compared as a set
 * because `$push` appends at the end and `$pull` removes every copy of a
 * value.
 */
module DiffApply {
  import opened Wrappers
  import opened Values
  import opened Dict
  import opened FieldTypes
  import Definition
  import opened Model
  import opened Patch
  import opened PatchApply
  import opened DiffProps
  import opened ApplyProps

  /** No field of the schema is a sub-model array. */
  predicate FlatSchema(fields: seq<Definition.FieldMeta>)
  {
    forall k :: 0 <= k < |fields| ==> fields[k].field.fieldType != FieldType.eSubModel
  }

  /** No two fields share an id, so `getFieldIndex` finds each field at its own position. */
  predicate DistinctFieldIds(fields: seq<Definition.FieldMeta>)
  {
    forall a, b :: 0 <= a < b < |fields| ==> fields[a].field.id != fields[b].field.id
  }

  /** One slot per field, and an array in the slot of every array field. */
  predicate ArraysAt(x: seq<Value>, fields: seq<Definition.FieldMeta>)
  {
    |x| == |fields| && forall k :: 0 <= k < |x| && fields[k].field.isArray ==> x[k].Arr?
  }

  lemma {:induction false} FitsAt(x: seq<Value>, fields: seq<Definition.FieldMeta>, i: nat, k: nat)
    requires |x| == |fields| && i <= k < |x| && FitsFrom(x, fields, i)
    ensures FitsField(x[k], fields[k].field)
    decreases k - i
  {
    if i < k {
      FitsAt(x, fields, i + 1, k);
    }
  }

  /** A payload that fits a schema without sub-model fields has an array wherever the schema says so. */
  lemma FitsArrays(x: seq<Value>, fields: seq<Definition.FieldMeta>)
    requires FlatSchema(fields) && Fits(x, fields)
    ensures ArraysAt(x, fields)
  {
    forall k | 0 <= k < |x| && fields[k].field.isArray
      ensures x[k].Arr?
    {
      FitsAt(x, fields, 0, k);
    }
  }

  // ---------------------------------------------------------------------------
  // What the diff writes, field by field

  /** Every key is a path of one component below `i`. */
  predicate KeysBelow<V>(m: seq<(Path, V)>, i: nat)
  {
    forall t :: 0 <= t < |m| ==> |m[t].0| == 1 && m[t].0[0] < i
  }

  /** The values a primitive array field gains: the target's values that the old array lacks. */
  function Gained(o: Value, nw: Value): seq<IdPos>
  {
    if o.Arr? && nw.Arr? then PrimitivePushes(o.items, nw.items) else []
  }

  /** The values a primitive array field loses: the old values that the target lacks. */
  function Lost(o: Value, nw: Value): seq<IdPos>
  {
    if o.Arr? && nw.Arr? then PrimitivePulls(o.items, nw.items) else []
  }

  /** The `$set` entry of field `k`: its new value when the scalar changed. */
  function SetOf(o: seq<Value>, nw: seq<Value>, fields: seq<Definition.FieldMeta>, k: nat): seq<(Path, Value)>
    requires k < |o| == |nw| == |fields|
  {
    if !fields[k].field.isArray && o[k] != nw[k] then [([k], nw[k])] else []
  }

  /** The `$push` entry of field `k`: the values an array field gains, if any. */
  function PushOf(o: seq<Value>, nw: seq<Value>, fields: seq<Definition.FieldMeta>, k: nat): seq<(Path, ArrayOp)>
    requires k < |o| == |nw| == |fields|
  {
    if fields[k].field.isArray && Gained(o[k], nw[k]) != [] then [([k], ArrayOp(ePrimitive, Gained(o[k], nw[k])))] else []
  }

  /** The `$pull` entry of field `k`: the values an array field loses, if any. */
  function PullOf(o: seq<Value>, nw: seq<Value>, fields: seq<Definition.FieldMeta>, k: nat): seq<(Path, ArrayOp)>
    requires k < |o| == |nw| == |fields|
  {
    if fields[k].field.isArray && Lost(o[k], nw[k]) != [] then [([k], ArrayOp(ePrimitive, Lost(o[k], nw[k])))] else []
  }

  /** The `$set` entries for the fields below `i`, in field order. */
  function SetsUpTo(o: seq<Value>, nw: seq<Value>, fields: seq<Definition.FieldMeta>, i: nat): seq<(Path, Value)>
    requires i <= |o| == |nw| == |fields|
  {
    if i == 0 then [] else SetsUpTo(o, nw, fields, i - 1) + SetOf(o, nw, fields, i - 1)
  }

  /** The `$push` entries for the fields below `i`, in field order. */
  function PushesUpTo(o: seq<Value>, nw: seq<Value>, fields: seq<Definition.FieldMeta>, i: nat): seq<(Path, ArrayOp)>
    requires i <= |o| == |nw| == |fields|
  {
    if i == 0 then [] else PushesUpTo(o, nw, fields, i - 1) + PushOf(o, nw, fields, i - 1)
  }

  /** The `$pull` entries for the fields below `i`, in field order. */
  function PullsUpTo(o: seq<Value>, nw: seq<Value>, fields: seq<Definition.FieldMeta>, i: nat): seq<(Path, ArrayOp)>
    requires i <= |o| == |nw| == |fields|
  {
    if i == 0 then [] else PullsUpTo(o, nw, fields, i - 1) + PullOf(o, nw, fields, i - 1)
  }

  function UpdateUpTo(o: seq<Value>, nw: seq<Value>, fields: seq<Definition.FieldMeta>, i: nat): Update
    requires i <= |o| == |nw| == |fields|
  {
    Update(SetsUpTo(o, nw, fields, i), PushesUpTo(o, nw, fields, i), PullsUpTo(o, nw, fields, i))
  }

  /** Appending nothing, or one entry under `[k]`, to keys below `k` gives keys below `k + 1`. */
  lemma KeysGrow<V>(m: seq<(Path, V)>, e: seq<(Path, V)>, k: nat)
    requires KeysBelow(m, k) && (e == [] || (|e| == 1 && e[0].0 == [k]))
    ensures KeysBelow(m + e, k + 1)
  {
    forall t | 0 <= t < |m + e|
      ensures |(m + e)[t].0| == 1 && (m + e)[t].0[0] < k + 1
    {
      if t < |m| {
        assert (m + e)[t] == m[t];
      }
    }
  }

  lemma {:induction false} UpToKeys(o: seq<Value>, nw: seq<Value>, fields: seq<Definition.FieldMeta>, i: nat)
    requires i <= |o| == |nw| == |fields|
    ensures KeysBelow(SetsUpTo(o, nw, fields, i), i)
    ensures KeysBelow(PushesUpTo(o, nw, fields, i), i)
    ensures KeysBelow(PullsUpTo(o, nw, fields, i), i)
  {
    if i > 0 {
      var k := i - 1;
      UpToKeys(o, nw, fields, k);
      KeysGrow(SetsUpTo(o, nw, fields, k), SetOf(o, nw, fields, k), k);
      KeysGrow(PushesUpTo(o, nw, fields, k), PushOf(o, nw, fields, k), k);
      KeysGrow(PullsUpTo(o, nw, fields, k), PullOf(o, nw, fields, k), k);
    }
  }

  /** A key below `i` is never `[i]`. */
  lemma FreshKey<V>(m: seq<(Path, V)>, i: nat)
    requires KeysBelow(m, i)
    ensures forall t :: 0 <= t < |m| ==> m[t].0 != [i]
  {
    forall t | 0 <= t < |m|
      ensures m[t].0 != [i]
    {
      assert m[t].0[0] < i;
    }
  }

  /** `u` with the entries of field `k` appended to each dictionary. */
  function AddField(u: Update, o: seq<Value>, nw: seq<Value>, fields: seq<Definition.FieldMeta>, k: nat): Update
    requires k < |o| == |nw| == |fields|
  {
    Update(u.sets + SetOf(o, nw, fields, k), u.pushes + PushOf(o, nw, fields, k), u.pulls + PullOf(o, nw, fields, k))
  }

  /** `u` with the entries of the fields from `i` on appended, field by field. */
  function AddFrom(u: Update, o: seq<Value>, nw: seq<Value>, fields: seq<Definition.FieldMeta>, i: nat): Update
    requires i <= |o| == |nw| == |fields|
    decreases |o| - i
  {
    if i == |o| then u else AddFrom(AddField(u, o, nw, fields, i), o, nw, fields, i + 1)
  }

  /** Every key of the three dictionaries is a one-component path below `i`. */
  predicate AllKeysBelow(u: Update, i: nat)
  {
    KeysBelow(u.sets, i) && KeysBelow(u.pushes, i) && KeysBelow(u.pulls, i)
  }

  /** The diff of field `i` appends that field's entries to each dictionary, since no earlier field used its key. */
  lemma FieldStep(u: Update, o: seq<Value>, nw: seq<Value>, fields: seq<Definition.FieldMeta>, i: nat)
    requires i < |o| == |nw| && FlatSchema(fields) && ArraysAt(o, fields) && ArraysAt(nw, fields)
    requires AllKeysBelow(u, i)
    ensures FieldPatch(u, [i], o[i], nw[i], fields[i].field) == Ok(AddField(u, o, nw, fields, i))
  {
    assert fields[i].field.fieldType != FieldType.eSubModel;
    FreshKey(u.sets, i);
    FreshKey(u.pushes, i);
    FreshKey(u.pulls, i);
    var s, pu, pl := SetOf(o, nw, fields, i), PushOf(o, nw, fields, i), PullOf(o, nw, fields, i);
    if fields[i].field.isArray {
      assert s == [] && u.sets + s == u.sets;
      if pu != [] {
        PutEntryNew(u.pushes, [i], pu[0].1);
      } else {
        assert u.pushes + pu == u.pushes;
      }
      if pl != [] {
        PutEntryNew(u.pulls, [i], pl[0].1);
      } else {
        assert u.pulls + pl == u.pulls;
      }
    } else {
      assert pu == [] && pl == [] && u.pushes + pu == u.pushes && u.pulls + pl == u.pulls;
      if s != [] {
        PutEntryNew(u.sets, [i], nw[i]);
      } else {
        assert u.sets + s == u.sets;
      }
    }
  }

  /** The field loop moves on to field `i + 1` with the dictionaries field `i` left. */
  lemma FieldsPatchNext(u: Update, o: seq<Value>, nw: seq<Value>, fields: seq<Definition.FieldMeta>, i: nat, next: Update)
    requires i < |o| == |nw| && i < |fields|
    requires FieldPatch(u, [i], o[i], nw[i], fields[i].field) == Ok(next)
    ensures FieldsPatch(u, [], o, nw, fields, i) == FieldsPatch(next, [], o, nw, fields, i + 1)
  {
    assert [] + [i] == [i];
  }

  /** Both values fit a schema without sub-model fields: what the field loop needs at every field. */
  predicate Walkable(o: seq<Value>, nw: seq<Value>, fields: seq<Definition.FieldMeta>)
  {
    FlatSchema(fields) && ArraysAt(o, fields) && ArraysAt(nw, fields)
  }

  /** One turn of the field loop: field `i` appends its entries, and the keys stay below the next index. */
  lemma FieldsFromStep(u: Update, o: seq<Value>, nw: seq<Value>, fields: seq<Definition.FieldMeta>, i: nat)
    requires i < |o| == |nw| == |fields| && Walkable(o, nw, fields)
    requires AllKeysBelow(u, i)
    ensures FieldsPatch(u, [], o, nw, fields, i) == FieldsPatch(AddField(u, o, nw, fields, i), [], o, nw, fields, i + 1)
    ensures AllKeysBelow(AddField(u, o, nw, fields, i), i + 1)
  {
    FieldStep(u, o, nw, fields, i);
    KeysGrow(u.sets, SetOf(o, nw, fields, i), i);
    KeysGrow(u.pushes, PushOf(o, nw, fields, i), i);
    KeysGrow(u.pulls, PullOf(o, nw, fields, i), i);
    FieldsPatchNext(u, o, nw, fields, i, AddField(u, o, nw, fields, i));
  }

  lemma {:induction false} FieldsFrom(u: Update, o: seq<Value>, nw: seq<Value>, fields: seq<Definition.FieldMeta>, i: nat)
    requires i <= |o| == |nw| == |fields| && Walkable(o, nw, fields)
    requires AllKeysBelow(u, i)
    ensures FieldsPatch(u, [], o, nw, fields, i) == Ok(AddFrom(u, o, nw, fields, i))
    decreases |o| - i
  {
    if i < |o| {
      FieldsFromStep(u, o, nw, fields, i);
      FieldsFrom(AddField(u, o, nw, fields, i), o, nw, fields, i + 1);
    }
  }

  /** Appending field by field from `i` on, starting from the entries below `i`, gives the entries of all fields. */
  lemma {:induction false} AddFromUpTo(o: seq<Value>, nw: seq<Value>, fields: seq<Definition.FieldMeta>, i: nat)
    requires i <= |o| == |nw| == |fields|
    ensures AddFrom(UpdateUpTo(o, nw, fields, i), o, nw, fields, i) == UpdateUpTo(o, nw, fields, |o|)
    decreases |o| - i
  {
    if i < |o| {
      assert AddField(UpdateUpTo(o, nw, fields, i), o, nw, fields, i) == UpdateUpTo(o, nw, fields, i + 1);
      AddFromUpTo(o, nw, fields, i + 1);
    }
  }

  /**
   * On a schema without sub-model fields the patch has one `$set` per changed
   * scalar field, one `$push` per array field that gains values and one
   * `$pull` per array field that loses values, each under the field's index,
   * in field order.
   */
  lemma DiffFlat(o: seq<Value>, nw: seq<Value>, fields: seq<Definition.FieldMeta>)
    requires FlatSchema(fields) && Fits(o, fields) && Fits(nw, fields)
    ensures Diff(o, nw, fields) == Ok(UpdateUpTo(o, nw, fields, |o|))
  {
    FitsArrays(o, fields);
    FitsArrays(nw, fields);
    FieldsFrom(NoUpdates, o, nw, fields, 0);
    AddFromUpTo(o, nw, fields, 0);
    assert UpdateUpTo(o, nw, fields, 0) == NoUpdates;
  }

  // ---------------------------------------------------------------------------
  // Replaying those entries

  /** An action on the field at index `k` changes that slot and nothing else. */
  lemma ApplyOne(p: seq<Value>, fields: seq<Definition.FieldMeta>, k: nat, op: SlotOp)
    requires DistinctFieldIds(fields) && k < |p| == |fields| && ApplyOp(p[k], op).Ok?
    ensures ApplyOps(p, fields, [([k], op)]) == Ok(p[k := ApplyOp(p[k], op).value])
  {
    assert Definition.FieldIndex(fields, fields[k].field.id) == k;
  }

  lemma {:induction false} SetOpsAppend(a: seq<(Path, Value)>, b: seq<(Path, Value)>)
    ensures SetOps(a + b) == SetOps(a) + SetOps(b)
  {
    if a != [] {
      assert (a + b)[0] == a[0] && (a + b)[1..] == a[1..] + b;
      SetOpsAppend(a[1..], b);
    } else {
      assert a + b == b;
    }
  }

  lemma {:induction false} PushOpsAppend(a: seq<(Path, ArrayOp)>, b: seq<(Path, ArrayOp)>)
    ensures PushOps(a + b) == PushOps(a) + PushOps(b)
  {
    if a != [] {
      assert (a + b)[0] == a[0] && (a + b)[1..] == a[1..] + b;
      PushOpsAppend(a[1..], b);
    } else {
      assert a + b == b;
    }
  }

  lemma {:induction false} PullOpsAppend(a: seq<(Path, ArrayOp)>, b: seq<(Path, ArrayOp)>)
    ensures PullOps(a + b) == PullOps(a) + PullOps(b)
  {
    if a != [] {
      assert (a + b)[0] == a[0] && (a + b)[1..] == a[1..] + b;
      PullOpsAppend(a[1..], b);
    } else {
      assert a + b == b;
    }
  }

  /** `r` is `o` after the `$set`s of the fields below `i`. */
  predicate SetsDone(r: seq<Value>, o: seq<Value>, nw: seq<Value>, fields: seq<Definition.FieldMeta>, i: nat)
    requires |o| == |nw| == |fields|
  {
    |r| == |o| && forall k :: 0 <= k < |o| ==> r[k] == if k < i && !fields[k].field.isArray then nw[k] else o[k]
  }

  /** `r` is `q` after the `$push`es of the fields below `i`. */
  predicate PushesDone(r: seq<Value>, q: seq<Value>, o: seq<Value>, nw: seq<Value>, fields: seq<Definition.FieldMeta>, i: nat)
    requires |o| == |nw| == |fields| == |q|
  {
    |r| == |q| &&
    forall k :: 0 <= k < |q| ==>
      r[k] == if k < i && fields[k].field.isArray && Gained(o[k], nw[k]) != [] && q[k].Arr?
              then Arr(q[k].items + IdsOrValues(Gained(o[k], nw[k])))
              else q[k]
  }

  /** `r` is `q` after the `$pull`s of the fields below `i`. */
  predicate PullsDone(r: seq<Value>, q: seq<Value>, o: seq<Value>, nw: seq<Value>, fields: seq<Definition.FieldMeta>, i: nat)
    requires |o| == |nw| == |fields| == |q|
  {
    |r| == |q| &&
    forall k :: 0 <= k < |q| ==>
      r[k] == if k < i && fields[k].field.isArray && Lost(o[k], nw[k]) != [] && q[k].Arr?
              then Arr(Without(q[k].items, ePrimitive, IdsOrValues(Lost(o[k], nw[k]))))
              else q[k]
  }

  /** Replaying the `$set` entry of field `k` on a payload done up to `k` gives one done up to `k + 1`. */
  lemma SetStep(prev: seq<Value>, o: seq<Value>, nw: seq<Value>, fields: seq<Definition.FieldMeta>, k: nat)
    requires k < |o| == |nw| == |fields| && DistinctFieldIds(fields) && SetsDone(prev, o, nw, fields, k)
    ensures ApplyOps(prev, fields, SetOps(SetOf(o, nw, fields, k))).Ok?
    ensures SetsDone(ApplyOps(prev, fields, SetOps(SetOf(o, nw, fields, k))).value, o, nw, fields, k + 1)
  {
    if SetOf(o, nw, fields, k) != [] {
      assert SetOps(SetOf(o, nw, fields, k)) == [([k], SetOp(nw[k]))];
      ApplyOne(prev, fields, k, SetOp(nw[k]));
    }
  }

  lemma PushStep(prev: seq<Value>, q: seq<Value>, o: seq<Value>, nw: seq<Value>, fields: seq<Definition.FieldMeta>, k: nat)
    requires k < |o| == |nw| == |fields| == |q| && ArraysAt(q, fields) && DistinctFieldIds(fields)
    requires PushesDone(prev, q, o, nw, fields, k)
    ensures ApplyOps(prev, fields, PushOps(PushOf(o, nw, fields, k))).Ok?
    ensures PushesDone(ApplyOps(prev, fields, PushOps(PushOf(o, nw, fields, k))).value, q, o, nw, fields, k + 1)
  {
    var push := Gained(o[k], nw[k]);
    if PushOf(o, nw, fields, k) != [] {
      assert PushOps(PushOf(o, nw, fields, k)) == [([k], PushOp(IdsOrValues(push)))];
      ApplyOne(prev, fields, k, PushOp(IdsOrValues(push)));
    }
  }

  lemma PullStep(prev: seq<Value>, q: seq<Value>, o: seq<Value>, nw: seq<Value>, fields: seq<Definition.FieldMeta>, k: nat)
    requires k < |o| == |nw| == |fields| == |q| && ArraysAt(q, fields) && DistinctFieldIds(fields)
    requires PullsDone(prev, q, o, nw, fields, k)
    ensures ApplyOps(prev, fields, PullOps(PullOf(o, nw, fields, k))).Ok?
    ensures PullsDone(ApplyOps(prev, fields, PullOps(PullOf(o, nw, fields, k))).value, q, o, nw, fields, k + 1)
  {
    var pull := Lost(o[k], nw[k]);
    if PullOf(o, nw, fields, k) != [] {
      assert PullOps(PullOf(o, nw, fields, k)) == [([k], PullOp(ePrimitive, IdsOrValues(pull)))];
      ApplyOne(prev, fields, k, PullOp(ePrimitive, IdsOrValues(pull)));
    }
  }

  lemma {:induction false} SetsReplayed(o: seq<Value>, nw: seq<Value>, fields: seq<Definition.FieldMeta>, i: nat)
    requires i <= |o| == |nw| == |fields| && DistinctFieldIds(fields)
    ensures ApplyOps(o, fields, SetOps(SetsUpTo(o, nw, fields, i))).Ok?
    ensures SetsDone(ApplyOps(o, fields, SetOps(SetsUpTo(o, nw, fields, i))).value, o, nw, fields, i)
  {
    if i > 0 {
      var k := i - 1;
      SetsReplayed(o, nw, fields, k);
      var a := SetOps(SetsUpTo(o, nw, fields, k));
      SetStep(ApplyOps(o, fields, a).value, o, nw, fields, k);
      SetOpsAppend(SetsUpTo(o, nw, fields, k), SetOf(o, nw, fields, k));
      ApplyOpsAppend(o, fields, a, SetOps(SetOf(o, nw, fields, k)));
    }
  }

  lemma {:induction false} PushesReplayed(q: seq<Value>, o: seq<Value>, nw: seq<Value>, fields: seq<Definition.FieldMeta>, i: nat)
    requires i <= |o| == |nw| == |fields| == |q| && ArraysAt(q, fields) && DistinctFieldIds(fields)
    ensures ApplyOps(q, fields, PushOps(PushesUpTo(o, nw, fields, i))).Ok?
    ensures PushesDone(ApplyOps(q, fields, PushOps(PushesUpTo(o, nw, fields, i))).value, q, o, nw, fields, i)
  {
    if i > 0 {
      var k := i - 1;
      PushesReplayed(q, o, nw, fields, k);
      var a := PushOps(PushesUpTo(o, nw, fields, k));
      PushStep(ApplyOps(q, fields, a).value, q, o, nw, fields, k);
      PushOpsAppend(PushesUpTo(o, nw, fields, k), PushOf(o, nw, fields, k));
      ApplyOpsAppend(q, fields, a, PushOps(PushOf(o, nw, fields, k)));
    }
  }

  lemma {:induction false} PullsReplayed(q: seq<Value>, o: seq<Value>, nw: seq<Value>, fields: seq<Definition.FieldMeta>, i: nat)
    requires i <= |o| == |nw| == |fields| == |q| && ArraysAt(q, fields) && DistinctFieldIds(fields)
    ensures ApplyOps(q, fields, PullOps(PullsUpTo(o, nw, fields, i))).Ok?
    ensures PullsDone(ApplyOps(q, fields, PullOps(PullsUpTo(o, nw, fields, i))).value, q, o, nw, fields, i)
  {
    if i > 0 {
      var k := i - 1;
      PullsReplayed(q, o, nw, fields, k);
      var a := PullOps(PullsUpTo(o, nw, fields, k));
      PullStep(ApplyOps(q, fields, a).value, q, o, nw, fields, k);
      PullOpsAppend(PullsUpTo(o, nw, fields, k), PullOf(o, nw, fields, k));
      ApplyOpsAppend(q, fields, a, PullOps(PullOf(o, nw, fields, k)));
    }
  }

  // ---------------------------------------------------------------------------
  // The round trip

  /** The values pushed are the target's values missing from the old array; the values pulled are the old values missing from the target. */
  lemma GainedLostValues(o: seq<Value>, nw: seq<Value>, x: Value)
    ensures x in IdsOrValues(PrimitivePushes(o, nw)) <==> x in nw && x !in o
    ensures x in IdsOrValues(PrimitivePulls(o, nw)) <==> x in o && x !in nw
  {
    var ps, pl := PrimitivePushes(o, nw), PrimitivePulls(o, nw);
    if x in IdsOrValues(ps) {
      var t :| 0 <= t < |ps| && IdsOrValues(ps)[t] == x;
      PrimitivePushesSpec(o, nw, ps[t]);
    }
    if x in nw && x !in o {
      var p :| 0 <= p < |nw| && nw[p] == x;
      PrimitivePushesSpec(o, nw, IdPos(p, x));
      var t :| 0 <= t < |ps| && ps[t] == IdPos(p, x);
      assert IdsOrValues(ps)[t] == x;
    }
    if x in IdsOrValues(pl) {
      var t :| 0 <= t < |pl| && IdsOrValues(pl)[t] == x;
      PrimitivePullsSpec(o, nw, pl[t]);
    }
    if x in o && x !in nw {
      var p :| 0 <= p < |o| && o[p] == x;
      PrimitivePullsSpec(o, nw, IdPos(p, x));
      var t :| 0 <= t < |pl| && pl[t] == IdPos(p, x);
      assert IdsOrValues(pl)[t] == x;
    }
  }

  /** After the three stages, a scalar slot holds the target's value and an array slot holds exactly the target's values. */
  lemma SlotReplayed(o: seq<Value>, nw: seq<Value>, fields: seq<Definition.FieldMeta>, q1: seq<Value>, q2: seq<Value>, q3: seq<Value>, k: nat)
    requires k < |o| == |nw| == |fields| && ArraysAt(o, fields) && ArraysAt(nw, fields)
    requires SetsDone(q1, o, nw, fields, |o|) && PushesDone(q2, q1, o, nw, fields, |o|) && PullsDone(q3, q2, o, nw, fields, |o|)
    ensures if fields[k].field.isArray
            then q3[k].Arr? && nw[k].Arr? && forall x :: x in q3[k].items <==> x in nw[k].items
            else q3[k] == nw[k]
  {
    if fields[k].field.isArray {
      forall x
        ensures x in q3[k].items <==> x in nw[k].items
      {
        GainedLostValues(o[k].items, nw[k].items, x);
        WithoutMembers(q2[k].items, ePrimitive, IdsOrValues(Lost(o[k], nw[k])), x);
      }
    }
  }

  /**
   * Diff, then apply: on a schema without sub-model fields whose field ids
   * are distinct, the patch from `o` to `nw` replays on `o` without an error
   * and gives a payload whose scalar slots are `nw`'s and whose array slots
   * hold exactly `nw`'s values.
   */
  lemma DiffThenApply(o: seq<Value>, nw: seq<Value>, fields: seq<Definition.FieldMeta>)
    requires FlatSchema(fields) && DistinctFieldIds(fields)
    requires Fits(o, fields) && Fits(nw, fields)
    ensures Diff(o, nw, fields).Ok?
    ensures ApplyToPayload(o, fields, Diff(o, nw, fields).value).Ok?
    ensures var r := ApplyToPayload(o, fields, Diff(o, nw, fields).value).value;
            |r| == |nw| &&
            forall k :: 0 <= k < |nw| ==>
              if fields[k].field.isArray
              then r[k].Arr? && nw[k].Arr? && forall x :: x in r[k].items <==> x in nw[k].items
              else r[k] == nw[k]
  {
    var n := |o|;
    DiffFlat(o, nw, fields);
    FitsArrays(o, fields);
    FitsArrays(nw, fields);
    var u := UpdateUpTo(o, nw, fields, n);
    SetsReplayed(o, nw, fields, n);
    var q1 := ApplyOps(o, fields, SetOps(u.sets)).value;
    assert ArraysAt(q1, fields);
    PushesReplayed(q1, o, nw, fields, n);
    var q2 := ApplyOps(q1, fields, PushOps(u.pushes)).value;
    assert ArraysAt(q2, fields);
    PullsReplayed(q2, o, nw, fields, n);
    var q3 := ApplyOps(q2, fields, PullOps(u.pulls)).value;
    ApplyOpsAppend(o, fields, SetOps(u.sets), PushOps(u.pushes));
    ApplyOpsAppend(o, fields, SetOps(u.sets) + PushOps(u.pushes), PullOps(u.pulls));
    assert ApplyToPayload(o, fields, u) == Ok(q3);
    forall k | 0 <= k < n
      ensures if fields[k].field.isArray
              then q3[k].Arr? && nw[k].Arr? && forall x :: x in q3[k].items <==> x in nw[k].items
              else q3[k] == nw[k]
    {
      SlotReplayed(o, nw, fields, q1, q2, q3, k);
    }
  }

  /** Every key of the patch is a single field index, so it names a root field. */
  lemma DiffFlatKeys(o: seq<Value>, nw: seq<Value>, fields: seq<Definition.FieldMeta>)
    requires FlatSchema(fields) && Fits(o, fields) && Fits(nw, fields)
    ensures Diff(o, nw, fields).Ok? && FlatKeys(Diff(o, nw, fields).value)
  {
    DiffFlat(o, nw, fields);
    UpToKeys(o, nw, fields, |o|);
  }

  /**
   * The same round trip through `applyUpdate` as written, on a mutable record
   * holding `o`: the patch has no sub-index, so every action succeeds and the
   * record ends up holding the replayed payload of `DiffThenApply`.
   */
  lemma DiffThenApplyRecord(s: ModelState, nw: seq<Value>, fields: seq<Definition.FieldMeta>)
    requires s.mode == eOff && FlatSchema(fields) && DistinctFieldIds(fields)
    requires Fits(s.data.payload, fields) && Fits(nw, fields)
    ensures Diff(s.data.payload, nw, fields).Ok?
    ensures ApplyToPayload(s.data.payload, fields, Diff(s.data.payload, nw, fields).value).Ok?
    ensures AppliedAsWritten(s, fields, Diff(s.data.payload, nw, fields).value).1.Pass?
    ensures AppliedAsWritten(s, fields, Diff(s.data.payload, nw, fields).value).0
            == s.(data := s.data.(payload := ApplyToPayload(s.data.payload, fields, Diff(s.data.payload, nw, fields).value).value))
  {
    DiffFlatKeys(s.data.payload, nw, fields);
    DiffThenApply(s.data.payload, nw, fields);
    AsWrittenAgreesFlat(s, fields, Diff(s.data.payload, nw, fields).value);
  }
}
