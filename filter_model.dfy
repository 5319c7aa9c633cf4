/**
 * Checking a record against a filter (src/_joint/filterModel.ts): every
 * constrained field's constraint must pass the record's value in that field,
 * read through a field pointer.
 *
 * The filter algebra works on numbers; a record slot holds any `Value`. The
 * constraints compare such a value the way JavaScript does: the list lookup
 * of the distinct part uses strict equality, so only a number can be found in
 * it, and the range comparisons convert the value to a number first (null is
 * 0, booleans are 0 and 1, everything else here is NaN, for which every
 * comparison is false and so no bound rejects it).
 */
module FilterModel {
  import opened Wrappers
  import opened Values
  import Range
  import Distinct
  import FilterField
  import Filter
  import Definition
  import FieldPointer
  import Model

  /** The number a relational comparison sees, or None for NaN. */
  function Numeric(v: Value): Option<real>
  {
    match v
    case Num(n) => Some(n)
    case Null => Some(0.0)
    case Bool(b) => Some(if b then 1.0 else 0.0)
    case _ => None
  }

  /** `indexOf(value) !== -1` on the held numbers. */
  predicate Held(vs: seq<real>, v: Value)
  {
    v.Num? && v.n in vs
  }

  predicate DistinctPassesValue(d: Distinct.DistinctVal, v: Value)
  {
    if d.mode == Distinct.IN then Held(d.values, v) else !Held(d.values, v)
  }

  /** The range part rejects only a value some bound excludes; NaN is excluded by none. */
  predicate RangePassesValue(r: Range.RangeVal, v: Value)
  {
    Numeric(v).None? || Range.Passes(r, Numeric(v).value)
  }

  /** `filterField.passes(value)` on a record value. */
  predicate FieldPassesValue(f: FilterField.FieldVal, v: Value)
  {
    DistinctPassesValue(f.distinct, v) && RangePassesValue(f.range, v)
  }

  /** `model.fPtr(desc).get()`: the payload slot of the field, undefined if the record has no such field. */
  function RecordValue(fields: seq<Definition.FieldMeta>, payload: seq<Value>, id: nat): Value
  {
    FieldPointer.ValueAt(payload, Definition.FieldIndex(fields, id))
  }

  /** The record passes every constraint of the filter. */
  ghost predicate RecordPasses(f: Filter.FilterVal, fields: seq<Definition.FieldMeta>, payload: seq<Value>)
  {
    forall id :: id in f.fields ==> FieldPassesValue(f.fields[id], RecordValue(fields, payload, id))
  }

  /**
   * `modelPassesFilter`: the fields in insertion order, a flag that the first
   * failure clears, and no check after it.
   */
  method ModelPassesFilter(model: Model.DeepModel, filter: Filter.Filter) returns (passes: bool)
    requires filter.Valid()
    ensures passes <==> RecordPasses(filter.Model(), model.fields, model.data.payload)
  {
    ghost var f := filter.Model();
    passes := true;
    var k := 0;
    while k < |filter.order|
      invariant 0 <= k <= |f.order| && f == filter.Model()
      invariant passes <==> PrefixPasses(f, model.fields, model.data.payload, k)
    {
      if passes {
        passes := FieldPasses(model, filter.order[k], filter.fields[filter.order[k]]);
      }
      PrefixStep(f, model.fields, model.data.payload, k);
      k := k + 1;
    }
    OrderCoversFields(f);
  }

  /** The fields at the first `k` places of the insertion order all pass. */
  ghost predicate PrefixPasses(f: Filter.FilterVal, fields: seq<Definition.FieldMeta>, payload: seq<Value>, k: nat)
    requires Filter.WellFormed(f) && k <= |f.order|
  {
    forall j :: 0 <= j < k ==> FieldPassesValue(f.fields[f.order[j]], RecordValue(fields, payload, f.order[j]))
  }

  lemma PrefixStep(f: Filter.FilterVal, fields: seq<Definition.FieldMeta>, payload: seq<Value>, k: nat)
    requires Filter.WellFormed(f) && k < |f.order|
    ensures PrefixPasses(f, fields, payload, k + 1) <==>
      PrefixPasses(f, fields, payload, k) && FieldPassesValue(f.fields[f.order[k]], RecordValue(fields, payload, f.order[k]))
  {
  }

  /** The check of one constrained field: read the record's value through a field pointer and test it. */
  method FieldPasses(model: Model.DeepModel, id: nat, f: FilterField.FieldVal) returns (passes: bool)
    ensures passes <==> FieldPassesValue(f, RecordValue(model.fields, model.data.payload, id))
  {
    var ptr := new FieldPointer.FPtr(model, id);
    passes := FieldPassesValue(f, ptr.Get());
  }

  lemma OrderCoversFields(f: Filter.FilterVal)
    requires Filter.WellFormed(f)
    ensures forall id :: id in f.fields ==> exists j :: 0 <= j < |f.order| && f.order[j] == id
  {
    forall id | id in f.fields
      ensures exists j :: 0 <= j < |f.order| && f.order[j] == id
    {
      assert id in f.order;
    }
  }

  // ---------------------------------------------------------------------------
  // Properties

  /** On a number the record check is the constraint algebra's own `passes`. */
  lemma FieldPassesNumber(f: FilterField.FieldVal, x: real)
    ensures FieldPassesValue(f, Num(x)) <==> FilterField.Passes(f, x)
  {
  }

  /**
   * A record whose constrained fields hold the numbers `vals` passes exactly
   * when the assignment `vals` passes the filter, so every result of the filter
   * algebra carries over to records.
   */
  lemma RecordPassesIffPasses(f: Filter.FilterVal, fields: seq<Definition.FieldMeta>, payload: seq<Value>, vals: Filter.Assignment)
    requires forall id :: id in f.fields ==> RecordValue(fields, payload, id) == Num(vals(id))
    ensures RecordPasses(f, fields, payload) <==> Filter.Passes(f, vals)
  {
    forall id | id in f.fields
      ensures FieldPassesValue(f.fields[id], RecordValue(fields, payload, id)) <==> FilterField.Passes(f.fields[id], vals(id))
    {
      FieldPassesNumber(f.fields[id], vals(id));
    }
  }

  /** An empty filter passes every record, and the fulfillable flag is not consulted. */
  lemma EmptyAndFlag(f: Filter.FilterVal, fields: seq<Definition.FieldMeta>, payload: seq<Value>, flag: bool)
    ensures RecordPasses(Filter.Empty, fields, payload)
    ensures RecordPasses(f.(fullfillable := flag), fields, payload) <==> RecordPasses(f, fields, payload)
  {
  }

  /**
   * A record without the field (or with undefined in it) passes a field
   * constraint exactly when its distinct part is NIN: no list holds undefined
   * and no bound rejects NaN.
   */
  lemma MissingValuePassesIffNIN(f: FilterField.FieldVal)
    ensures FieldPassesValue(f, Undef) <==> f.distinct.mode == Distinct.NIN
  {
  }

  /**
   * For a numeric record, the filters `andNotEnsuredByMultiple(bs)` returns on
   * `a` admit it only if `a` does, and do admit it when `a` does and every `b`
   * (well-formed, of fulfillable fields) rejects it.
   */
  lemma RecordInUnensuredMultiple(a: Filter.FilterVal, bs: seq<Filter.FilterVal>, fields: seq<Definition.FieldMeta>,
                                  payload: seq<Value>, vals: Filter.Assignment)
    requires forall i :: 0 <= i < |bs| ==> Filter.WellFormed(bs[i]) && Filter.FieldsFullfillable(bs[i])
    requires forall id :: RecordValue(fields, payload, id) == Num(vals(id))
    ensures (exists r :: r in Filter.UnensuredMultiple(a, bs) && RecordPasses(r, fields, payload))
            ==> RecordPasses(a, fields, payload)
    ensures RecordPasses(a, fields, payload) && (forall i :: 0 <= i < |bs| ==> !RecordPasses(bs[i], fields, payload))
            ==> exists r :: r in Filter.UnensuredMultiple(a, bs) && RecordPasses(r, fields, payload)
  {
    RecordPassesIffPasses(a, fields, payload, vals);
    if exists r :: r in Filter.UnensuredMultiple(a, bs) && RecordPasses(r, fields, payload) {
      var r :| r in Filter.UnensuredMultiple(a, bs) && RecordPasses(r, fields, payload);
      RecordPassesIffPasses(r, fields, payload, vals);
      Filter.MultipleSound(a, bs, r, vals);
    }
    if RecordPasses(a, fields, payload) && (forall i :: 0 <= i < |bs| ==> !RecordPasses(bs[i], fields, payload)) {
      forall i | 0 <= i < |bs|
        ensures !Filter.Passes(bs[i], vals)
      {
        RecordPassesIffPasses(bs[i], fields, payload, vals);
      }
      Filter.MultipleCovers(a, bs, vals);
      var r :| r in Filter.UnensuredMultiple(a, bs) && Filter.Passes(r, vals);
      RecordPassesIffPasses(r, fields, payload, vals);
    }
  }
}
