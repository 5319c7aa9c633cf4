/**
 * The dynamic values a record payload and a wire document hold. A payload is a
 * positional list of values; a sub-model array field holds an `Arr` of `Arr`s
 * whose slot 0 is the entry's id; a document is an `Obj` of segment `Obj`s.
 * Object properties are kept in insertion order.
 */
module Values {

  datatype Value =
    | Undef
    | Null
    | Bool(b: bool)
    | Num(n: real)
    | Str(s: string)
    | Arr(items: seq<Value>)
    | Obj(props: seq<Prop>)

  datatype Prop = Prop(key: string, val: Value)

  /** JavaScript truthiness (NaN is not modelled). */
  predicate Truthy(v: Value)
  {
    match v
    case Undef => false
    case Null => false
    case Bool(b) => b
    case Num(n) => n != 0.0
    case Str(s) => s != ""
    case Arr(_) => true
    case Obj(_) => true
  }

  /** A number with zero fractional part (`value % 1 === 0`). */
  predicate IsInteger(n: real)
  {
    n == n.Floor as real
  }

  /** A size measure under which every nested value is smaller than its container. */
  function Size(v: Value): nat
  {
    match v
    case Arr(items) => 1 + SizeItems(items)
    case Obj(props) => 1 + SizeProps(props)
    case Undef => 0
    case _ => 1
  }

  function SizeItems(items: seq<Value>): nat
  {
    if items == [] then 0 else Size(items[0]) + SizeItems(items[1..])
  }

  function SizeProps(props: seq<Prop>): nat
  {
    if props == [] then 0 else Size(props[0].val) + SizeProps(props[1..])
  }

  lemma {:induction false} SizeItemsBound(items: seq<Value>, i: nat)
    requires i < |items|
    ensures Size(items[i]) <= SizeItems(items)
  {
    if i > 0 {
      SizeItemsBound(items[1..], i - 1);
    }
  }

  // ---------------------------------------------------------------------------
  // Object properties

  /** `obj[key]`: the value under `key`, or undefined. */
  function Lookup(props: seq<Prop>, key: string): (v: Value)
    ensures Size(v) <= SizeProps(props)
    ensures v != Undef ==> exists i :: 0 <= i < |props| && props[i].key == key && props[i].val == v
  {
    if props == [] then Undef
    else if props[0].key == key then props[0].val
    else Lookup(props[1..], key)
  }

  /** Property access on any value: only objects have properties here. */
  function GetProp(v: Value, key: string): (r: Value)
    ensures Size(r) < Size(v) || r == Undef
  {
    if v.Obj? then Lookup(v.props, key) else Undef
  }

  /** The property names of an object, in order. */
  function Keys(props: seq<Prop>): (ks: seq<string>)
    ensures |ks| == |props|
    ensures forall i :: 0 <= i < |props| ==> ks[i] == props[i].key
  {
    seq(|props|, i requires 0 <= i < |props| => props[i].key)
  }

  /** `obj[key] = val`: an existing key keeps its place, a new key goes last. */
  function Put(props: seq<Prop>, key: string, val: Value): (r: seq<Prop>)
    ensures Lookup(r, key) == val
    ensures forall k :: k != key ==> Lookup(r, k) == Lookup(props, k)
    ensures forall k :: k in Keys(r) <==> k == key || k in Keys(props)
    ensures key in Keys(props) ==> |r| == |props|
  {
    if props == [] then [Prop(key, val)]
    else
      assert props == [props[0]] + props[1..];
      if props[0].key == key then
        PutFront(props[0], props[1..], val);
        [Prop(key, val)] + props[1..]
      else
        var rest := Put(props[1..], key, val);
        PutBehindReads(props[0], props[1..], rest, key, val);
        PutBehindKeys(props[0], props[1..], rest, key);
        [props[0]] + rest
  }

  /** Reading and listing the keys of an object with one more property in front. */
  lemma PropsCons(p: Prop, ps: seq<Prop>)
    ensures Keys([p] + ps) == [p.key] + Keys(ps)
    ensures forall k :: Lookup([p] + ps, k) == if p.key == k then p.val else Lookup(ps, k)
  {
    assert ([p] + ps)[1..] == ps;
  }

  /** Overwriting the first property. */
  lemma PutFront(p: Prop, ps: seq<Prop>, val: Value)
    ensures Lookup([Prop(p.key, val)] + ps, p.key) == val
    ensures forall k :: k != p.key ==> Lookup([Prop(p.key, val)] + ps, k) == Lookup([p] + ps, k)
    ensures forall k :: k in Keys([Prop(p.key, val)] + ps) <==> k == p.key || k in Keys([p] + ps)
    ensures |[Prop(p.key, val)] + ps| == |[p] + ps|
  {
    PropsCons(Prop(p.key, val), ps);
    PropsCons(p, ps);
  }

  /** Writing behind a first property with another key: what each key reads. */
  lemma PutBehindReads(p: Prop, ps: seq<Prop>, rest: seq<Prop>, key: string, val: Value)
    requires p.key != key
    requires Lookup(rest, key) == val
    requires forall k :: k != key ==> Lookup(rest, k) == Lookup(ps, k)
    ensures Lookup([p] + rest, key) == val
    ensures forall k :: k != key ==> Lookup([p] + rest, k) == Lookup([p] + ps, k)
  {
    PropsCons(p, rest);
    PropsCons(p, ps);
  }

  /** Writing behind a first property with another key: the keys listed. */
  lemma PutBehindKeys(p: Prop, ps: seq<Prop>, rest: seq<Prop>, key: string)
    requires p.key != key
    requires forall k :: k in Keys(rest) <==> k == key || k in Keys(ps)
    requires key in Keys(ps) ==> |rest| == |ps|
    ensures forall k :: k in Keys([p] + rest) <==> k == key || k in Keys([p] + ps)
    ensures key in Keys([p] + ps) ==> |[p] + rest| == |[p] + ps|
  {
    PropsCons(p, rest);
    PropsCons(p, ps);
    var r, q := Keys([p] + rest), Keys([p] + ps);
    forall k ensures k in r <==> k == key || k in q {
      assert k in r <==> k == p.key || k in Keys(rest);
      assert k in q <==> k == p.key || k in Keys(ps);
    }
  }

  // ---------------------------------------------------------------------------
  // Arrays

  /** The message of the TypeError that reading a property of null or undefined throws. */
  const ReadOfNullMessage := "Cannot read properties of null or undefined (reading '0')"

  /** A value whose properties can be read: `v[0]` throws exactly on null and undefined. */
  predicate Indexable(v: Value)
  {
    !v.Undef? && !v.Null?
  }

  /** Every entry of a list can be indexed, so mapping `el => el[0]` over it does not throw. */
  predicate AllIndexable(vs: seq<Value>)
  {
    forall j :: 0 <= j < |vs| ==> Indexable(vs[j])
  }

  /**
   * `el[0]` on an entry that is neither null nor undefined: slot 0 of an
   * array (a sub-model entry's id), the first character of a string, the
   * property "0" of an object, and undefined on a number or a boolean.
   * Callers test `Indexable` first, where the source throws.
   */
  function IdOf(entry: Value): Value
  {
    match entry
    case Arr(items) => if items == [] then Undef else items[0]
    case Str(s) => if s == "" then Undef else Str([s[0]])
    case Obj(props) => Lookup(props, "0")
    case _ => Undef
  }

  /** `Array.prototype.indexOf`: the first index holding `x`, or -1. */
  function IndexOf(vs: seq<Value>, x: Value): (i: int)
    ensures -1 <= i < |vs|
    ensures i == -1 <==> x !in vs
    ensures 0 <= i ==> vs[i] == x && forall j :: 0 <= j < i ==> vs[j] != x
  {
    if vs == [] then -1
    else if vs[0] == x then 0
    else
      var r := IndexOf(vs[1..], x);
      if r == -1 then -1 else r + 1
  }

  /** The ids of a list of sub-model entries, in order. */
  function Ids(entries: seq<Value>): (ids: seq<Value>)
    ensures |ids| == |entries|
    ensures forall j :: 0 <= j < |entries| ==> ids[j] == IdOf(entries[j])
  {
    seq(|entries|, j requires 0 <= j < |entries| => IdOf(entries[j]))
  }
}
