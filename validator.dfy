/**
 * Field validators (src/model/definition/description/validator.ts). `checkFor`
 * answers with a validation error, with nothing, or throws: `Ok(Some(msg))`,
 * `Ok(None)` and `Err` here.
 */
module Validator {
  import opened Wrappers
  import opened Values
  import opened FieldTypes

  /** An enumerator object: its own properties, in insertion order. */
  type EnumTable = seq<Prop>

  datatype Validator =
    | Required
    | Enum(enumerator: EnumTable)
    | Type(fieldType: FieldType)

  const RequiredMessage := "Pflichtfeld"
  const EnumMessage := "Falscher Wert (Enum)"
  const TypeMessage := "Fehlerhafter Typ"

  /**
   * The members a plain object inherits from `Object.prototype`. Each is a
   * function or, for `__proto__`, an object, so each is truthy.
   */
  const InheritedKeys: set<string> := {
    "constructor", "hasOwnProperty", "isPrototypeOf", "propertyIsEnumerable",
    "toLocaleString", "toString", "valueOf", "__defineGetter__",
    "__defineSetter__", "__lookupGetter__", "__lookupSetter__", "__proto__"
  }

  /** The decimal digits of `k`, most significant first. */
  function Digits(k: nat): (s: string)
    ensures |s| >= 1 && forall c :: c in s ==> '0' <= c <= '9'
  {
    if k < 10 then ["0123456789"[k]] else Digits(k / 10) + ["0123456789"[k % 10]]
  }

  /** `String(k)` for an integer below 10^21 in magnitude. */
  function IntKey(k: int): string
  {
    if k < 0 then "-" + Digits(-k) else Digits(k)
  }

  /**
   * The property key `obj[v]` looks up: `String(v)`. It is modelled for every
   * value except a number with a fractional part or of magnitude 10^21 or
   * more (and an array holding one), which gets `None`.
   */
  function Key(v: Value): Option<string>
    decreases Size(v), 0, 0
  {
    match v
    case Undef => Some("undefined")
    case Null => Some("null")
    case Bool(b) => Some(if b then "true" else "false")
    case Num(n) => if IsInteger(n) && -1e21 < n < 1e21 then Some(IntKey(n.Floor)) else None
    case Str(s) => Some(s)
    case Arr(items) => JoinedKeys(items)
    case Obj(_) => Some("[object Object]")
  }

  /** `items.join(",")`, where undefined and null elements become empty strings. */
  function JoinedKeys(items: seq<Value>): Option<string>
    decreases SizeItems(items), 1, |items|
  {
    if items == [] then Some("")
    else
      var first := if items[0].Undef? || items[0].Null? then Some("") else Key(items[0]);
      var rest := JoinedKeys(items[1..]);
      if first.None? || rest.None? then None
      else if |items| == 1 then first
      else Some(first.value + "," + rest.value)
  }

  /** The first own property under `k`, if there is one. */
  function OwnLookup(t: EnumTable, k: string): Option<Value>
  {
    if t == [] then None
    else if t[0].key == k then Some(t[0].val)
    else OwnLookup(t[1..], k)
  }

  /** The lookup finds a property exactly when one has the key, and then it is the first such. */
  lemma {:induction false} OwnLookupSpec(t: EnumTable, k: string)
    ensures OwnLookup(t, k).Some? <==> exists i :: 0 <= i < |t| && t[i].key == k
    ensures OwnLookup(t, k).Some? ==> exists i :: 0 <= i < |t| && t[i] == Prop(k, OwnLookup(t, k).value) && forall j :: 0 <= j < i ==> t[j].key != k
  {
    if t != [] && t[0].key != k {
      OwnLookupSpec(t[1..], k);
      if OwnLookup(t, k).Some? {
        var i :| 0 <= i < |t| - 1 && t[1..][i] == Prop(k, OwnLookup(t, k).value) && forall j :: 0 <= j < i ==> t[1..][j].key != k;
        assert t[i + 1] == Prop(k, OwnLookup(t, k).value);
        assert forall j :: 0 <= j < i + 1 ==> t[j].key != k by {
          forall j | 0 <= j < i + 1 ensures t[j].key != k {
            if j > 0 {
              assert t[j] == t[1..][j - 1];
            }
          }
        }
      } else {
        forall i | 0 <= i < |t| ensures t[i].key != k {
          if i > 0 {
            assert t[i] == t[1..][i - 1];
          }
        }
      }
    }
  }

  /**
   * `enumerator[value]`: the first own property under the value's key string,
   * else an inherited member (a function, here the truthy stand-in
   * `Obj([])`), else undefined.
   */
  function EnumLookup(t: EnumTable, v: Value): (r: Value)
    ensures r != Undef ==> Key(v).Some? && (OwnLookup(t, Key(v).value) == Some(r) || Key(v).value in InheritedKeys)
    ensures Key(v).Some? && OwnLookup(t, Key(v).value).None? && Key(v).value !in InheritedKeys ==> r == Undef
  {
    match Key(v)
    case None => Undef
    case Some(k) =>
      match OwnLookup(t, k)
      case Some(x) => x
      case None => if k in InheritedKeys then Obj([]) else Undef
  }

  /**
   * The switch of `ValidatorType.checkFor`: `Some(ok)` for the field types it
   * knows, `None` for those it throws on. Sub-models accept what `typeof`
   * calls an object: null, arrays and objects.
   */
  function TypeAccepts(ft: FieldType, v: Value): Option<bool>
  {
    match ft
    case eBoolean => Some(v.Bool?)
    case eFloat => Some(v.Num?)
    case eInteger => Some(v.Num? && IsInteger(v.n))
    case eEnum => Some(v.Num? && IsInteger(v.n))
    case eString => Some(v.Str?)
    case eSubModel => Some(v.Null? || v.Arr? || v.Obj?)
    case _ => None
  }

  function CheckFor(val: Validator, v: Value): Result<Option<string>>
  {
    match val
    case Required => Ok(if !Truthy(v) then Some(RequiredMessage) else None)
    case Enum(t) => Ok(if !Truthy(EnumLookup(t, v)) then Some(EnumMessage) else None)
    case Type(ft) =>
      match TypeAccepts(ft, v)
      case None => Err("Field type validator not implemented")
      case Some(ok) => Ok(if !ok then Some(TypeMessage) else None)
  }

  // ---------------------------------------------------------------------------
  // Properties

  /** `ValidatorRequired` reports an error exactly for falsy values. */
  lemma RequiredRejectsExactlyFalsy(v: Value)
    ensures CheckFor(Required, v).Ok?
    ensures CheckFor(Required, v).value.Some? <==> !Truthy(v)
    ensures v == Bool(false) || v == Num(0.0) || v == Str("") || v == Null || v == Undef ==> CheckFor(Required, v).value.Some?
    ensures v.Arr? || v.Obj? ==> CheckFor(Required, v).value.None?
  {
  }

  /**
   * `ValidatorEnum` never throws. It accepts a value exactly when the value's
   * key string names a truthy own property, or names no own property but an
   * inherited member of `Object.prototype`.
   */
  lemma EnumAcceptsExactlyListed(t: EnumTable, v: Value)
    ensures CheckFor(Enum(t), v).Ok?
    ensures CheckFor(Enum(t), v).value.None? <==> (Key(v).Some? &&
      ((exists i :: 0 <= i < |t| && t[i].key == Key(v).value && Truthy(t[i].val) && forall j :: 0 <= j < i ==> t[j].key != Key(v).value) ||
       ((forall i :: 0 <= i < |t| ==> t[i].key != Key(v).value) && Key(v).value in InheritedKeys)))
  {
    if Key(v).Some? {
      var k := Key(v).value;
      OwnLookupSpec(t, k);
      var r := OwnLookup(t, k);
      if r.Some? {
        var i :| 0 <= i < |t| && t[i] == Prop(k, r.value) && forall j :: 0 <= j < i ==> t[j].key != k;
        forall i' | 0 <= i' < |t| && t[i'].key == k && forall j :: 0 <= j < i' ==> t[j].key != k
          ensures i' == i
        {
        }
      }
    }
  }

  /** A value and its key string find the same entry: `"1"` and `1` read the same property. */
  lemma KeyStringLooksUpAlike(t: EnumTable, v: Value)
    requires Key(v).Some?
    ensures CheckFor(Enum(t), Str(Key(v).value)) == CheckFor(Enum(t), v)
  {
  }

  /** The object TypeScript emits for `enum E { A, B }`: the reverse mapping, then the names. */
  const NumericEnum: EnumTable := [Prop("0", Str("A")), Prop("1", Str("B")), Prop("A", Num(0.0)), Prop("B", Num(1.0))]

  /** On `NumericEnum` the number 1 and the string `"1"` both pass through the reverse mapping. */
  lemma NumericEnumReverse()
    ensures CheckFor(Enum(NumericEnum), Num(1.0)) == Ok(None)
    ensures CheckFor(Enum(NumericEnum), Str("1")) == Ok(None)
  {
    assert Key(Num(1.0)) == Some("1");
  }

  /** On `NumericEnum` the number 2 is not listed, and the name `"A"` fails because its value 0 is falsy. */
  lemma NumericEnumMisses()
    ensures CheckFor(Enum(NumericEnum), Num(2.0)) == Ok(Some(EnumMessage))
    ensures CheckFor(Enum(NumericEnum), Str("A")) == Ok(Some(EnumMessage))
  {
    assert Key(Num(2.0)) == Some("2");
    assert NumericEnum[0].key != "2" && NumericEnum[1].key != "2";
    assert NumericEnum[2].key != "2" && NumericEnum[3].key != "2";
  }

  /** On `NumericEnum` the name `"B"` passes, and `"toString"` passes as an inherited member. */
  lemma NumericEnumNames()
    ensures CheckFor(Enum(NumericEnum), Str("B")) == Ok(None)
    ensures CheckFor(Enum(NumericEnum), Str("toString")) == Ok(None)
  {
    assert forall i :: 0 <= i < |NumericEnum| ==> NumericEnum[i].key[0] != "toString"[0];
  }

  /** `ValidatorType` throws exactly for date, reference and object fields. */
  lemma TypeThrowsExactly(ft: FieldType, v: Value)
    ensures CheckFor(Type(ft), v).Err? <==> ft in {eDate, eReference, eObject}
  {
  }

  /** Integer and enum fields accept whole numbers and reject fractional ones and non-numbers. */
  lemma IntegerCheck(k: int, v: Value)
    ensures CheckFor(Type(eInteger), Num(k as real)) == Ok(None)
    ensures CheckFor(Type(eEnum), Num(k as real)) == Ok(None)
    ensures CheckFor(Type(eInteger), Num(k as real + 0.5)) == Ok(Some(TypeMessage))
    ensures !v.Num? ==> CheckFor(Type(eInteger), v) == Ok(Some(TypeMessage))
  {
    assert (k as real + 0.5).Floor == k;
  }

  /** Whenever `checkFor` answers, the type check accepts a value iff it has the type's shape. */
  lemma TypeCheckMeaning(ft: FieldType, v: Value)
    requires CheckFor(Type(ft), v).Ok?
    ensures CheckFor(Type(ft), v).value.None? <==>
      match ft
      case eBoolean => v.Bool?
      case eFloat => v.Num?
      case eInteger => v.Num? && IsInteger(v.n)
      case eEnum => v.Num? && IsInteger(v.n)
      case eString => v.Str?
      case eSubModel => v.Null? || v.Arr? || v.Obj?
      case _ => false
    ensures CheckFor(Type(ft), v).value.Some? ==> CheckFor(Type(ft), v).value.value == TypeMessage
  {
  }
}
