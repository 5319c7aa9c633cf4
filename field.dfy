/**
 * Field descriptions (src/model/definition/description/field.ts) and the
 * sub-model array field (src/model/definition/fieldSubModelArray.ts).
 *
 * A field description is a value identified by its `id`, which stands for the
 * object identity the source compares with `===`. A sub-model array field
 * carries the description of its entries, whose first key is `_id`.
 */
module Field {
  import opened Wrappers
  import opened Values
  import opened FieldTypes
  import Validator

  datatype FieldDesc = FieldDesc(
    id: nat,
    caption: string,
    fieldType: FieldType,
    isArray: bool,
    validators: seq<Validator.Validator>,
    sub: SubDesc)

  /** What only a sub-model array field has: the description of its entries. */
  datatype SubDesc = Plain | Entries(desc: Description)

  /** A model description: keys in order, each naming a field. */
  type Description = seq<(string, FieldDesc)>

  /** The key the sub-model array puts first: every entry keeps its id in slot 0. */
  const IdKey := "_id"

  // ---------------------------------------------------------------------------
  // Construction

  /** The constructor: a non-array sub-model field is refused. */
  function NewField(id: nat, caption: string, ft: FieldType, isArray: bool): (r: Result<FieldDesc>)
    ensures r.Err? <==> ft == eSubModel && !isArray
    ensures r.Ok? ==> r.value == FieldDesc(id, caption, ft, isArray, [], Plain)
  {
    if ft == eSubModel && !isArray then Err("FieldType eSubModel is only allowed as Array.")
    else Ok(FieldDesc(id, caption, ft, isArray, [], Plain))
  }

  /** `getDefaultVal`: [] for arrays, a per-type scalar otherwise, a throw for types without one. */
  function DefaultVal(f: FieldDesc): Result<Value>
  {
    if f.isArray then Ok(Arr([]))
    else match f.fieldType
      case eBoolean => Ok(Bool(false))
      case eDate => Ok(Null)
      case eEnum => Ok(Num(0.0))
      case eFloat => Ok(Num(0.0))
      case eInteger => Ok(Num(0.0))
      case eReference => Ok(Null)
      case eString => Ok(Str(""))
      case _ => Err("ENotImplemented for fieldType")
  }

  /** `required`: some validator is the required validator. */
  predicate IsRequired(f: FieldDesc)
  {
    exists i :: 0 <= i < |f.validators| && f.validators[i] == Validator.Required
  }

  /** `pushValidators`: append in order. */
  function PushValidators(f: FieldDesc, vs: seq<Validator.Validator>): (g: FieldDesc)
    ensures |g.validators| == |f.validators| + |vs|
    ensures g.validators[..|f.validators|] == f.validators
    ensures g.validators[|f.validators|..] == vs
    ensures g.(validators := f.validators) == f
  {
    f.(validators := f.validators + vs)
  }

  function PushValidatorRequired(f: FieldDesc): (g: FieldDesc)
    ensures IsRequired(g)
    ensures g.validators == f.validators + [Validator.Required]
  {
    var g := PushValidators(f, [Validator.Required]);
    assert g.validators[|f.validators|] == Validator.Required;
    g
  }

  /**
   * The description of a sub-model's entries: `_id` first, then the given keys
   * in order (a given `_id` keeps slot 0 and its own field, as spreading does).
   */
  function WithIdSlot(idField: FieldDesc, desc: Description): (d: Description)
    ensures |d| >= 1 && d[0].0 == IdKey
    ensures forall i :: 1 <= i < |d| ==> d[i].0 != IdKey
  {
    var given := FindKey(desc, IdKey);
    [(IdKey, if given.Some? then given.value else idField)] + WithoutKey(desc, IdKey)
  }

  function FindKey(desc: Description, k: string): Option<FieldDesc>
  {
    if desc == [] then None
    else if desc[0].0 == k then Some(desc[0].1)
    else FindKey(desc[1..], k)
  }

  function WithoutKey(desc: Description, k: string): (r: Description)
    ensures forall i :: 0 <= i < |r| ==> r[i].0 != k
    ensures |r| <= |desc|
  {
    if desc == [] then []
    else if desc[0].0 == k then WithoutKey(desc[1..], k)
    else [desc[0]] + WithoutKey(desc[1..], k)
  }

  /**
   * The sub-model array constructor: an array field of type `eSubModel` whose
   * entries are described by `desc` behind an `ID` string field. Its
   * sub-definition is activated at once, so an entry field without a default
   * makes the construction throw.
   */
  function NewSubModelArray(id: nat, idFieldId: nat, caption: string, desc: Description): (r: Result<FieldDesc>)
    ensures r.Ok? ==> r.value.fieldType == eSubModel && r.value.isArray && r.value.sub.Entries?
    ensures r.Ok? ==> |r.value.sub.desc| >= 1 && r.value.sub.desc[0].0 == IdKey
  {
    var idField := FieldDesc(idFieldId, "ID", eString, false, [], Plain);
    var full := WithIdSlot(idField, desc);
    if forall i :: 0 <= i < |full| ==> DefaultVal(full[i].1).Ok? then
      Ok(FieldDesc(id, caption, eSubModel, true, [], Entries(full)))
    else Err("ENotImplemented for fieldType")
  }

  // ---------------------------------------------------------------------------
  // Properties

  /** Array fields default to [] and every scalar type but the object type has a default. */
  lemma DefaultsByType(f: FieldDesc)
    ensures f.isArray ==> DefaultVal(f) == Ok(Arr([]))
    ensures DefaultVal(f).Err? <==> !f.isArray && f.fieldType in {eSubModel, eObject}
    ensures !f.isArray && f.fieldType in {eEnum, eFloat, eInteger} ==> DefaultVal(f) == Ok(Num(0.0))
    ensures !f.isArray && f.fieldType in {eDate, eReference} ==> DefaultVal(f) == Ok(Null)
  {
  }

  /**
   * A fresh value of a required scalar field fails its required check, and the
   * default of every field the type validator knows passes its type check
   * (arrays only for sub-models: `typeof []` is an object).
   */
  lemma DefaultsAgainstValidators(f: FieldDesc)
    requires DefaultVal(f).Ok?
    ensures !f.isArray ==> Validator.CheckFor(Validator.Required, DefaultVal(f).value).value.Some?
    ensures f.isArray ==> Validator.CheckFor(Validator.Required, DefaultVal(f).value).value.None?
    ensures !f.isArray && f.fieldType in {eBoolean, eEnum, eFloat, eInteger, eString} ==>
      Validator.CheckFor(Validator.Type(f.fieldType), DefaultVal(f).value) == Ok(None)
    ensures f.isArray ==> Validator.CheckFor(Validator.Type(eSubModel), DefaultVal(f).value) == Ok(None)
  {
    assert (0.0).Floor == 0;
  }

  /** Pushing validators keeps earlier ones, so a required field stays required. */
  lemma PushKeepsRequired(f: FieldDesc, vs: seq<Validator.Validator>)
    ensures IsRequired(f) ==> IsRequired(PushValidators(f, vs))
    ensures IsRequired(PushValidators(f, vs)) <==> IsRequired(f) || Validator.Required in vs
  {
    var g := PushValidators(f, vs);
    if IsRequired(f) {
      var i :| 0 <= i < |f.validators| && f.validators[i] == Validator.Required;
      assert g.validators[i] == Validator.Required;
    }
    if Validator.Required in vs {
      var i :| 0 <= i < |vs| && vs[i] == Validator.Required;
      assert g.validators[|f.validators| + i] == Validator.Required;
    }
    if IsRequired(g) {
      var i :| 0 <= i < |g.validators| && g.validators[i] == Validator.Required;
      if i < |f.validators| { assert f.validators[i] == Validator.Required; }
      else { assert vs[i - |f.validators|] == Validator.Required; }
    }
  }

  /** The sub-model entry description is `_id` followed by the given keys other than `_id`, in order. */
  lemma SubModelArrayIdSlot(id: nat, idFieldId: nat, caption: string, desc: Description)
    requires NewSubModelArray(id, idFieldId, caption, desc).Ok?
    requires forall i :: 0 <= i < |desc| ==> desc[i].0 != IdKey
    ensures NewSubModelArray(id, idFieldId, caption, desc).value.sub.desc
            == [(IdKey, FieldDesc(idFieldId, "ID", eString, false, [], Plain))] + desc
  {
    WithoutKeyAbsent(desc, IdKey);
    FindKeyAbsent(desc, IdKey);
  }

  lemma {:induction false} WithoutKeyAbsent(desc: Description, k: string)
    requires forall i :: 0 <= i < |desc| ==> desc[i].0 != k
    ensures WithoutKey(desc, k) == desc
  {
    if desc != [] {
      WithoutKeyAbsent(desc[1..], k);
      assert desc == [desc[0]] + desc[1..];
    }
  }

  lemma {:induction false} FindKeyAbsent(desc: Description, k: string)
    requires forall i :: 0 <= i < |desc| ==> desc[i].0 != k
    ensures FindKey(desc, k) == None
  {
    if desc != [] {
      FindKeyAbsent(desc[1..], k);
    }
  }
}
