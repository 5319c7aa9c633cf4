/**
 * The model definition (src/model/definition/definition.ts): named description
 * segments flattened into an ordered field list with default values, the
 * index lookup by field, and the conversion between the positional payload
 * and the segmented wire document, including the sub-model array conversion
 * (src/model/definition/fieldSubModelArray.ts).
 */
module Definition {
  import opened Wrappers
  import opened Values
  import opened Field

  /** The segment the root description is stored under. */
  const RootSegment := "%root%"

  datatype FieldMeta = FieldMeta(segmentKey: string, key: string, field: FieldDesc)

  /** The descriptions by segment, in insertion order. */
  type Segments = seq<(string, Description)>

  // ---------------------------------------------------------------------------
  // Identity and flattening

  /** `ident`: the module ident, with `_` and the sub ident appended when there is one. */
  function Ident(moduleIdent: string, subIdent: string): (r: string)
    ensures subIdent == "" ==> r == moduleIdent
    ensures subIdent != "" ==> r == moduleIdent + "_" + subIdent
  {
    if subIdent != "" then moduleIdent + "_" + subIdent else moduleIdent
  }

  /** The fields of one segment, keys in order. */
  function FlattenDesc(seg: string, desc: Description): (fs: seq<FieldMeta>)
    ensures |fs| == |desc|
    ensures forall k :: 0 <= k < |desc| ==> fs[k] == FieldMeta(seg, desc[k].0, desc[k].1)
  {
    seq(|desc|, k requires 0 <= k < |desc| => FieldMeta(seg, desc[k].0, desc[k].1))
  }

  /** What `_readDesc` lists: segments in order, the keys of each in order. */
  function Flatten(segs: Segments): seq<FieldMeta>
  {
    if segs == [] then [] else Flatten(segs[..|segs| - 1]) + FlattenDesc(segs[|segs| - 1].0, segs[|segs| - 1].1)
  }

  /** The default value of every field, or the first field's throw. */
  function Defaults(fields: seq<FieldMeta>): (r: Result<seq<Value>>)
    ensures r.Ok? ==> |r.value| == |fields|
  {
    if fields == [] then Ok([])
    else
      var init := Defaults(fields[..|fields| - 1]);
      var last := DefaultVal(fields[|fields| - 1].field);
      if init.Err? then init
      else if last.Err? then Err(last.msg)
      else
        assert forall i :: 0 <= i < |fields| - 1 ==> fields[..|fields| - 1][i] == fields[i];
        Ok(init.value + [last.value])
  }

  /** `descriptions[seg] = desc`: an existing segment keeps its place. */
  function PutSegment(segs: Segments, seg: string, desc: Description): (r: Segments)
    ensures (exists i :: 0 <= i < |segs| && segs[i].0 == seg) ==> |r| == |segs|
    ensures (forall i :: 0 <= i < |segs| ==> segs[i].0 != seg) ==> r == segs + [(seg, desc)]
  {
    if segs == [] then [(seg, desc)]
    else if segs[0].0 == seg then [(seg, desc)] + segs[1..]
    else [segs[0]] + PutSegment(segs[1..], seg, desc)
  }

  /** `getFieldIndex`: the first index whose field is `id`, or -1. */
  function FieldIndex(fields: seq<FieldMeta>, id: nat): (i: int)
    ensures -1 <= i < |fields|
    ensures i == -1 <==> forall j :: 0 <= j < |fields| ==> fields[j].field.id != id
    ensures 0 <= i ==> fields[i].field.id == id && forall j :: 0 <= j < i ==> fields[j].field.id != id
  {
    if fields == [] then -1
    else if fields[0].field.id == id then 0
    else
      var r := FieldIndex(fields[1..], id);
      if r == -1 then -1 else r + 1
  }

  /** The fields of a sub-model array's sub-definition: its entry description under the root segment. */
  function SubFields(f: FieldDesc): seq<FieldMeta>
  {
    if f.sub.Entries? then FlattenDesc(RootSegment, f.sub.desc) else []
  }

  /** `arr[i] = v` on a JavaScript array: past the end the array grows, holes read as undefined. */
  function WriteAt(data: seq<Value>, i: nat, v: Value): (r: seq<Value>)
    ensures |r| == if i < |data| then |data| else i + 1
    ensures r[i] == v
    ensures forall j :: 0 <= j < |data| && j != i ==> r[j] == data[j]
  {
    if i < |data| then data[i := v] else data + seq(i - |data|, _ => Undef) + [v]
  }

  // ---------------------------------------------------------------------------
  // Payload <-> document

  /** `convertFromDocument`: identity, except that a sub-model array maps `documentToArr` over its entries. */
  function ConvertFromDocument(f: FieldDesc, v: Value): Result<Value>
    decreases Size(v), 0
  {
    if f.sub.Plain? then Ok(v)
    else if !v.Arr? then Err("forEach of a non-array")
    else
      var sd := Defaults(SubFields(f));
      if sd.Err? then Err(sd.msg)
      else
        var r := MapDocToArr(SubFields(f), sd.value, v.items);
        if r.Err? then Err(r.msg) else Ok(Arr(r.value))
  }

  function MapDocToArr(fields: seq<FieldMeta>, defaults: seq<Value>, items: seq<Value>): (r: Result<seq<Value>>)
    ensures r.Ok? ==> |r.value| == |items|
    decreases SizeItems(items), 3, |items|
  {
    if items == [] then Ok([])
    else
      var first := DocToArr(fields, defaults, items[0]);
      if first.Err? then Err(first.msg)
      else
        var rest := MapDocToArr(fields, defaults, items[1..]);
        if rest.Err? then Err(rest.msg) else Ok([Arr(first.value)] + rest.value)
  }

  /** `documentToArr`: start from the defaults, overwrite each field whose segment is present. */
  function DocToArr(fields: seq<FieldMeta>, defaults: seq<Value>, doc: Value): Result<seq<Value>>
    decreases Size(doc), 2, 0
  {
    DocToArrFrom(fields, doc, defaults, 0)
  }

  function DocToArrFrom(fields: seq<FieldMeta>, doc: Value, data: seq<Value>, i: nat): Result<seq<Value>>
    decreases Size(doc), 1, |fields| - i
  {
    if i >= |fields| then Ok(data)
    else if doc.Undef? || doc.Null? then Err("Cannot read properties of undefined")
    else
      var seg := GetProp(doc, fields[i].segmentKey);
      if !Truthy(seg) then DocToArrFrom(fields, doc, data, i + 1)
      else
        var x := GetProp(seg, fields[i].key);
        assert Size(x) < Size(doc);
        var c := ConvertFromDocument(fields[i].field, x);
        if c.Err? then Err(c.msg) else DocToArrFrom(fields, doc, WriteAt(data, i, c.value), i + 1)
  }

  /** `convertToDocument`: identity, except that a sub-model array maps `arrToDocument` over its entries. */
  function ConvertToDocument(f: FieldDesc, v: Value): Result<Value>
    decreases Size(v), 0
  {
    if f.sub.Plain? then Ok(v)
    else if !v.Arr? then Err("forEach of a non-array")
    else
      var r := MapArrToDoc(SubFields(f), v.items);
      if r.Err? then Err(r.msg) else Ok(Arr(r.value))
  }

  /**
   * `arrToDocument` mapped over the entries of a sub-model array: one
   * document per entry. Reading a slot of a null or undefined entry throws
   * (when there is a field to read); any other non-array entry reads as an
   * empty payload.
   */
  function MapArrToDoc(fields: seq<FieldMeta>, items: seq<Value>): (r: Result<seq<Value>>)
    ensures r.Ok? ==> |r.value| == |items|
    ensures fields != [] && !AllIndexable(items) ==> r.Err?
    decreases SizeItems(items), 3, |items|
  {
    if items == [] then Ok([])
    else if !Indexable(items[0]) && fields != [] then Err(ReadOfNullMessage)
    else
      var sub := if items[0].Arr? then items[0].items else [];
      assert SizeItems(sub) <= SizeItems(items);
      var first := ArrToDoc(fields, sub);
      if first.Err? then Err(first.msg)
      else
        var rest := MapArrToDoc(fields, items[1..]);
        if rest.Err? then Err(rest.msg) else Ok([first.value] + rest.value)
  }

  /** `arrToDocument`: each payload slot under its segment and key. */
  function ArrToDoc(fields: seq<FieldMeta>, arr: seq<Value>): Result<Value>
    decreases SizeItems(arr), 2, 0
  {
    ArrToDocFrom(fields, arr, [], 0)
  }

  function ArrToDocFrom(fields: seq<FieldMeta>, arr: seq<Value>, doc: seq<Prop>, i: nat): Result<Value>
    decreases SizeItems(arr), 1, |fields| - i
  {
    if i >= |fields| then Ok(Obj(doc))
    else
      var x := SlotOf(arr, i);
      assert Size(x) <= SizeItems(arr) by {
        if i < |arr| { SizeItemsBound(arr, i); }
      }
      var c := ConvertToDocument(fields[i].field, x);
      if c.Err? then Err(c.msg)
      else ArrToDocFrom(fields, arr, PutPlace(doc, fields[i].segmentKey, fields[i].key, c.value), i + 1)
  }

  /** `arr[i]` on the payload: undefined past the end. */
  function SlotOf(arr: seq<Value>, i: nat): Value
  {
    if i < |arr| then arr[i] else Undef
  }

  /** `if (!document[segment]) document[segment] = {}; document[segment][key] = c`. */
  function PutPlace(doc: seq<Prop>, segKey: string, key: string, c: Value): (r: seq<Prop>)
    ensures Lookup(r, segKey).Obj? && GetProp(Lookup(r, segKey), key) == c
  {
    var seg := Lookup(doc, segKey);
    var segProps := if seg.Obj? then seg.props else [];
    Put(doc, segKey, Obj(Put(segProps, key, c)))
  }

  // ---------------------------------------------------------------------------
  // Well-formed schemas and payloads

  /** No two fields share both segment and key. */
  predicate UniquePlaces(fields: seq<FieldMeta>)
  {
    forall i, j :: 0 <= i < j < |fields| ==>
      fields[i].segmentKey != fields[j].segmentKey || fields[i].key != fields[j].key
  }

  /** A field whose sub-model entries (recursively) have distinct keys and defaults. */
  ghost predicate WellFormedField(f: FieldDesc)
    decreases f
  {
    f.sub.Entries? ==>
      && UniquePlaces(SubFields(f))
      && Defaults(SubFields(f)).Ok?
      && forall k :: 0 <= k < |f.sub.desc| ==> WellFormedField(f.sub.desc[k].1)
  }

  ghost predicate WellFormedFields(fields: seq<FieldMeta>)
  {
    UniquePlaces(fields) && forall i :: 0 <= i < |fields| ==> WellFormedField(fields[i].field)
  }

  /** A payload that matches its schema: one slot per field, sub-model slots holding entry payloads. */
  predicate Shaped(fields: seq<FieldMeta>, arr: seq<Value>)
    decreases SizeItems(arr), 1
  {
    && |arr| == |fields|
    && forall i :: 0 <= i < |arr| ==>
         (SizeItemsBound(arr, i); ShapedValue(fields[i].field, arr[i]))
  }

  predicate ShapedValue(f: FieldDesc, v: Value)
    decreases Size(v), 0
  {
    f.sub.Entries? ==>
      && v.Arr?
      && forall j :: 0 <= j < |v.items| ==>
           (SizeItemsBound(v.items, j);
            v.items[j].Arr? && Shaped(SubFields(f), v.items[j].items))
  }

  // ---------------------------------------------------------------------------
  // Properties

  /** Flattening lists the segments in order: the fields of a longer prefix extend those of a shorter one. */
  lemma {:induction false} FlattenPrefix(segs: Segments, n: nat)
    requires n <= |segs|
    ensures Flatten(segs[..n]) <= Flatten(segs)
    decreases |segs| - n
  {
    if n < |segs| {
      FlattenPrefix(segs, n + 1);
      assert segs[..n + 1][..n] == segs[..n];
    } else {
      assert segs[..n] == segs;
    }
  }

  /** The value found at a field's place in a document. */
  function AtPlace(doc: seq<Prop>, m: FieldMeta): Value
  {
    GetProp(Lookup(doc, m.segmentKey), m.key)
  }

  /** Writing one place leaves every other place as it was. */
  lemma PutPlaceKeeps(doc: seq<Prop>, segKey: string, key: string, c: Value, m: FieldMeta)
    requires m.segmentKey != segKey || m.key != key
    ensures AtPlace(PutPlace(doc, segKey, key, c), m) == AtPlace(doc, m)
    ensures Lookup(doc, m.segmentKey).Obj? ==> Lookup(PutPlace(doc, segKey, key, c), m.segmentKey).Obj?
  {
  }

  /** Building the document: every slot ends up under its segment key and key, inside a segment object. */
  lemma {:induction false} ArrToDocPlaces(fields: seq<FieldMeta>, arr: seq<Value>, doc: seq<Prop>, i: nat)
    requires UniquePlaces(fields)
    requires i <= |fields|
    requires forall j :: 0 <= j < |fields| ==> ConvertToDocument(fields[j].field, SlotOf(arr, j)).Ok?
    requires forall j :: 0 <= j < i ==>
      Lookup(doc, fields[j].segmentKey).Obj? && AtPlace(doc, fields[j]) == ConvertToDocument(fields[j].field, SlotOf(arr, j)).value
    ensures ArrToDocFrom(fields, arr, doc, i).Ok?
    ensures ArrToDocFrom(fields, arr, doc, i).value.Obj?
    ensures forall j :: 0 <= j < |fields| ==>
      var d := ArrToDocFrom(fields, arr, doc, i).value.props;
      Lookup(d, fields[j].segmentKey).Obj? && AtPlace(d, fields[j]) == ConvertToDocument(fields[j].field, SlotOf(arr, j)).value
    decreases |fields| - i
  {
    if i < |fields| {
      var c := ConvertToDocument(fields[i].field, SlotOf(arr, i)).value;
      var doc' := PutPlace(doc, fields[i].segmentKey, fields[i].key, c);
      forall j | 0 <= j < i
        ensures Lookup(doc', fields[j].segmentKey).Obj?
        ensures AtPlace(doc', fields[j]) == ConvertToDocument(fields[j].field, SlotOf(arr, j)).value
      {
        PutPlaceKeeps(doc, fields[i].segmentKey, fields[i].key, c, fields[j]);
      }
      ArrToDocPlaces(fields, arr, doc', i + 1);
    }
  }

  /** Reading the document back: each slot is restored from its place. */
  lemma {:induction false} DocToArrReads(fields: seq<FieldMeta>, doc: seq<Prop>, data: seq<Value>, arr: seq<Value>, i: nat)
    requires i <= |fields| == |arr| == |data|
    requires data[..i] == arr[..i]
    requires forall j :: 0 <= j < |fields| ==>
      && Lookup(doc, fields[j].segmentKey).Obj?
      && ConvertFromDocument(fields[j].field, AtPlace(doc, fields[j])) == Ok(arr[j])
    ensures DocToArrFrom(fields, Obj(doc), data, i) == Ok(arr)
    decreases |fields| - i
  {
    if i < |fields| {
      var data' := WriteAt(data, i, arr[i]);
      DocToArrStep(fields, doc, data, i, arr[i]);
      WriteAtPrefix(data, arr, i);
      DocToArrReads(fields, doc, data', arr, i + 1);
    } else {
      assert data == data[..i] && arr == arr[..i];
    }
  }

  /** A field whose segment is present and whose value converts is written to its slot. */
  lemma DocToArrStep(fields: seq<FieldMeta>, doc: seq<Prop>, data: seq<Value>, i: nat, v: Value)
    requires i < |fields| && Lookup(doc, fields[i].segmentKey).Obj?
    requires ConvertFromDocument(fields[i].field, AtPlace(doc, fields[i])) == Ok(v)
    ensures DocToArrFrom(fields, Obj(doc), data, i) == DocToArrFrom(fields, Obj(doc), WriteAt(data, i, v), i + 1)
  {
    assert GetProp(Obj(doc), fields[i].segmentKey) == Lookup(doc, fields[i].segmentKey);
  }

  lemma WriteAtPrefix(data: seq<Value>, arr: seq<Value>, i: nat)
    requires i < |data| == |arr| && data[..i] == arr[..i]
    ensures WriteAt(data, i, arr[i])[..i + 1] == arr[..i + 1]
  {
    var d := WriteAt(data, i, arr[i]);
    forall j | 0 <= j < i + 1 ensures d[j] == arr[j] {
      if j < i { assert data[..i][j] == arr[..i][j]; }
    }
  }

  /** `documentToArr(arrToDocument(a)) == a` for a payload shaped by a well-formed schema. */
  lemma {:induction false} RoundTrip(fields: seq<FieldMeta>, defaults: seq<Value>, arr: seq<Value>)
    requires WellFormedFields(fields) && Shaped(fields, arr)
    requires |defaults| == |fields|
    ensures ArrToDoc(fields, arr).Ok? && ArrToDoc(fields, arr).value.Obj?
    ensures DocToArr(fields, defaults, ArrToDoc(fields, arr).value) == Ok(arr)
    decreases SizeItems(arr), 1
  {
    forall j | 0 <= j < |fields|
      ensures ConvertToDocument(fields[j].field, SlotOf(arr, j)).Ok?
      ensures ConvertFromDocument(fields[j].field, ConvertToDocument(fields[j].field, SlotOf(arr, j)).value) == Ok(arr[j])
    {
      SizeItemsBound(arr, j);
      RoundTripField(fields[j].field, arr[j]);
    }
    ArrToDocPlaces(fields, arr, [], 0);
    DocToArrReads(fields, ArrToDoc(fields, arr).value.props, defaults, arr, 0);
  }

  /** A shaped value of a well-formed field survives `convertToDocument` then `convertFromDocument`. */
  lemma {:induction false} RoundTripField(f: FieldDesc, v: Value)
    requires WellFormedField(f) && ShapedValue(f, v)
    ensures ConvertToDocument(f, v).Ok?
    ensures ConvertFromDocument(f, ConvertToDocument(f, v).value) == Ok(v)
    decreases Size(v), 0
  {
    if f.sub.Entries? {
      RoundTripItems(f, v.items);
    }
  }

  lemma {:induction false} RoundTripItems(f: FieldDesc, items: seq<Value>)
    requires f.sub.Entries? && WellFormedField(f)
    requires forall j :: 0 <= j < |items| ==> items[j].Arr? && Shaped(SubFields(f), items[j].items)
    ensures MapArrToDoc(SubFields(f), items).Ok?
    ensures MapDocToArr(SubFields(f), Defaults(SubFields(f)).value, MapArrToDoc(SubFields(f), items).value) == Ok(items)
    decreases SizeItems(items), 3, |items|
  {
    if items != [] {
      var sf := SubFields(f);
      assert WellFormedFields(sf) by {
        forall i | 0 <= i < |sf| ensures WellFormedField(sf[i].field) {
          assert sf[i].field == f.sub.desc[i].1;
        }
      }
      assert SizeItems(items[0].items) < Size(items[0]) <= SizeItems(items);
      RoundTrip(sf, Defaults(sf).value, items[0].items);
      RoundTripItems(f, items[1..]);
      MapRoundTripCons(sf, Defaults(sf).value, items);
    }
  }

  /** The mapped round trip extends from the rest of the entries to one more entry in front. */
  lemma MapRoundTripCons(sf: seq<FieldMeta>, defaults: seq<Value>, items: seq<Value>)
    requires items != [] && items[0].Arr?
    requires ArrToDoc(sf, items[0].items).Ok?
    requires DocToArr(sf, defaults, ArrToDoc(sf, items[0].items).value) == Ok(items[0].items)
    requires MapArrToDoc(sf, items[1..]).Ok?
    requires MapDocToArr(sf, defaults, MapArrToDoc(sf, items[1..]).value) == Ok(items[1..])
    ensures MapArrToDoc(sf, items).Ok?
    ensures MapDocToArr(sf, defaults, MapArrToDoc(sf, items).value) == Ok(items)
  {
    var first := ArrToDoc(sf, items[0].items).value;
    var rest := MapArrToDoc(sf, items[1..]).value;
    assert MapArrToDoc(sf, items).value == [first] + rest;
    assert ([first] + rest)[1..] == rest;
    assert [Arr(items[0].items)] + items[1..] == items;
  }

  // ---------------------------------------------------------------------------
  // The definition object

  /** The TypeError of reading property `name` of `_fields` or `_defaultVal` while it is still undefined. */
  function UnreadMessage(name: string): string
  {
    "Cannot read properties of undefined (reading '" + name + "')"
  }

  class DeepModelDefinition {
    const moduleIdent: string
    const subIdent: string
    const caption: string
    const ident: string
    var descriptions: Segments
    var fields: seq<FieldMeta>
    var defaultVal: seq<Value>
    var activated: bool
    /** Whether `_readDesc` has run: until then `_fields` and `_defaultVal` are undefined and `fields`, `defaultVal` hold no value. */
    var fieldsRead: bool

    constructor (moduleIdent: string, subIdent: string, caption: string, rootDesc: Description)
      ensures ident == Ident(moduleIdent, subIdent)
      ensures this.moduleIdent == moduleIdent && this.subIdent == subIdent && this.caption == caption
      ensures descriptions == [(RootSegment, rootDesc)]
      ensures !activated && !fieldsRead
    {
      this.moduleIdent := moduleIdent;
      this.subIdent := subIdent;
      this.caption := caption;
      ident := Ident(moduleIdent, subIdent);
      descriptions := [(RootSegment, rootDesc)];
      fields := [];
      defaultVal := [];
      activated := false;
      fieldsRead := false;
    }

    /**
     * `_readDesc`: rebuild the field list and the defaults from the
     * descriptions. A field without a default throws after its entry has been
     * listed.
     */
    method ReadDesc() returns (r: Outcome)
      modifies this
      ensures descriptions == old(descriptions) && activated == old(activated) && fieldsRead
      ensures r.Pass? <==> Defaults(Flatten(descriptions)).Ok?
      ensures r.Pass? ==> fields == Flatten(descriptions) && defaultVal == Defaults(Flatten(descriptions)).value
      ensures r.Fail? ==>
        && |fields| == |defaultVal| + 1
        && fields <= Flatten(descriptions)
        && DefaultVal(fields[|fields| - 1].field).Err?
    {
      fields := [];
      defaultVal := [];
      fieldsRead := true;
      var s := 0;
      while s < |descriptions|
        invariant descriptions == old(descriptions) && activated == old(activated) && fieldsRead
        invariant 0 <= s <= |descriptions|
        invariant fields == Flatten(descriptions[..s])
        invariant Defaults(fields) == Ok(defaultVal)
      {
        var rs, k := ReadSegment(descriptions[s].0, descriptions[s].1);
        if rs.Fail? {
          ReadFailed(descriptions, s, k, fields);
          return rs;
        }
        FlattenSnoc(descriptions, s);
        s := s + 1;
      }
      assert descriptions[..s] == descriptions;
      return Pass;
    }

    /** The inner loop of `_readDesc`: list the keys of one segment with their defaults. */
    method ReadSegment(seg: string, desc: Description) returns (r: Outcome, k: nat)
      modifies this
      requires Defaults(fields) == Ok(defaultVal)
      ensures descriptions == old(descriptions) && activated == old(activated) && fieldsRead == old(fieldsRead)
      ensures r.Pass? ==> fields == old(fields) + FlattenDesc(seg, desc) && Defaults(fields) == Ok(defaultVal)
      ensures r.Fail? ==>
        && k < |desc|
        && fields == old(fields) + FlattenDesc(seg, desc[..k + 1])
        && |fields| == |defaultVal| + 1
        && DefaultVal(desc[k].1).Err?
    {
      ghost var f0 := fields;
      k := 0;
      while k < |desc|
        invariant descriptions == old(descriptions) && activated == old(activated) && fieldsRead == old(fieldsRead)
        invariant 0 <= k <= |desc|
        invariant fields == f0 + FlattenDesc(seg, desc[..k])
        invariant Defaults(fields) == Ok(defaultVal)
      {
        var m := FieldMeta(seg, desc[k].0, desc[k].1);
        ReadStep(f0, seg, desc, k, fields, defaultVal);
        fields := fields + [m];
        var d := DefaultVal(m.field);
        if d.Err? {
          return Fail(d.msg), k;
        }
        defaultVal := defaultVal + [d.value];
        k := k + 1;
      }
      assert desc[..k] == desc;
      return Pass, k;
    }

    method Activate() returns (r: Outcome)
      modifies this
      ensures descriptions == old(descriptions) && fieldsRead
      ensures r.Pass? <==> Defaults(Flatten(descriptions)).Ok?
      ensures r.Pass? ==> activated && fields == Flatten(descriptions) && defaultVal == Defaults(Flatten(descriptions)).value
      ensures r.Fail? ==> activated == old(activated)
    {
      r := ReadDesc();
      if r.Pass? {
        activated := true;
      }
    }

    /** `addDesc`: store the segment; re-read the fields only when already activated. */
    method AddDesc(seg: string, desc: Description) returns (r: Outcome)
      modifies this
      ensures descriptions == PutSegment(old(descriptions), seg, desc)
      ensures activated == old(activated) && fieldsRead == (old(fieldsRead) || old(activated))
      ensures !old(activated) ==> r.Pass? && fields == old(fields) && defaultVal == old(defaultVal)
      ensures old(activated) ==> (r.Pass? <==> Defaults(Flatten(descriptions)).Ok?)
      ensures old(activated) && r.Pass? ==> fields == Flatten(descriptions) && defaultVal == Defaults(Flatten(descriptions)).value
    {
      descriptions := PutSegment(descriptions, seg, desc);
      r := Pass;
      if activated {
        r := ReadDesc();
      }
    }

    /** `getFieldIndex`: a search loop over the field list, which throws before the fields were first read. */
    method GetFieldIndex(id: nat) returns (r: Result<int>)
      ensures !fieldsRead ==> r == Err(UnreadMessage("length"))
      ensures fieldsRead ==> r == Ok(FieldIndex(fields, id))
    {
      if !fieldsRead {
        return Err(UnreadMessage("length"));
      }
      var i := 0;
      while i < |fields|
        invariant 0 <= i <= |fields|
        invariant forall j :: 0 <= j < i ==> fields[j].field.id != id
      {
        if fields[i].field.id == id {
          return Ok(i);
        }
        i := i + 1;
      }
      return Ok(-1);
    }

    /** `documentToArr`: a copy of the defaults overwritten field by field. */
    method DocumentToArr(doc: Value) returns (r: Result<seq<Value>>)
      ensures !fieldsRead ==> r == Err(UnreadMessage("slice"))
      ensures fieldsRead ==> r == DocToArr(fields, defaultVal, doc)
    {
      if !fieldsRead {
        return Err(UnreadMessage("slice"));
      }
      var data := defaultVal;
      var i := 0;
      while i < |fields|
        invariant 0 <= i <= |fields|
        invariant DocToArrFrom(fields, doc, data, i) == DocToArr(fields, defaultVal, doc)
      {
        if doc.Undef? || doc.Null? {
          return Err("Cannot read properties of undefined");
        }
        var seg := GetProp(doc, fields[i].segmentKey);
        if Truthy(seg) {
          var c := ConvertFromDocument(fields[i].field, GetProp(seg, fields[i].key));
          if c.Err? {
            return Err(c.msg);
          }
          data := WriteAt(data, i, c.value);
        }
        i := i + 1;
      }
      return Ok(data);
    }

    /** `arrToDocument`: one pass over the fields, creating each segment object on first use. */
    method ArrToDocument(arr: seq<Value>) returns (r: Result<Value>)
      ensures !fieldsRead ==> r == Err(UnreadMessage("forEach"))
      ensures fieldsRead ==> r == ArrToDoc(fields, arr)
    {
      if !fieldsRead {
        return Err(UnreadMessage("forEach"));
      }
      var doc: seq<Prop> := [];
      var i := 0;
      while i < |fields|
        invariant 0 <= i <= |fields|
        invariant ArrToDocFrom(fields, arr, doc, i) == ArrToDoc(fields, arr)
      {
        var c := ConvertToDocument(fields[i].field, SlotOf(arr, i));
        if c.Err? {
          return Err(c.msg);
        }
        doc := PutPlace(doc, fields[i].segmentKey, fields[i].key, c.value);
        i := i + 1;
      }
      return Ok(Obj(doc));
    }
  }

  /** The fields listed before a throwing default form a prefix of the full flattening. */
  lemma ReadPrefix(segs: Segments, s: nat, k: nat)
    requires s < |segs| && k < |segs[s].1|
    ensures Flatten(segs[..s]) + FlattenDesc(segs[s].0, segs[s].1[..k + 1]) <= Flatten(segs)
  {
    FlattenPrefix(segs, s + 1);
    assert segs[..s + 1][..s] == segs[..s];
    var a := FlattenDesc(segs[s].0, segs[s].1[..k + 1]);
    var b := FlattenDesc(segs[s].0, segs[s].1);
    assert a <= b;
  }

  /** A key without a default, once listed, leaves a prefix of the flattening ending in that key, and no defaults. */
  lemma ReadFailed(segs: Segments, s: nat, k: nat, fields: seq<FieldMeta>)
    requires s < |segs| && k < |segs[s].1|
    requires fields == Flatten(segs[..s]) + FlattenDesc(segs[s].0, segs[s].1[..k + 1])
    requires DefaultVal(segs[s].1[k].1).Err?
    ensures fields <= Flatten(segs) && |fields| > 0
    ensures DefaultVal(fields[|fields| - 1].field).Err?
    ensures Defaults(Flatten(segs)).Err?
  {
    ReadPrefix(segs, s, k);
    FlattenDescSnoc(segs[s].0, segs[s].1, k);
    assert fields[|fields| - 1] == FieldMeta(segs[s].0, segs[s].1[k].0, segs[s].1[k].1);
    assert Flatten(segs)[|fields| - 1] == fields[|fields| - 1];
    DefaultsSpec(Flatten(segs));
  }

  lemma FlattenSnoc(segs: Segments, s: nat)
    requires s < |segs|
    ensures Flatten(segs[..s + 1]) == Flatten(segs[..s]) + FlattenDesc(segs[s].0, segs[s].1)
  {
    assert segs[..s + 1][..s] == segs[..s];
  }

  lemma FlattenDescSnoc(seg: string, desc: Description, k: nat)
    requires k < |desc|
    ensures FlattenDesc(seg, desc[..k + 1]) == FlattenDesc(seg, desc[..k]) + [FieldMeta(seg, desc[k].0, desc[k].1)]
  {
  }

  /** The defaults exist iff every field has one, and then they are the fields' defaults in order. */
  lemma {:induction false} DefaultsSpec(fields: seq<FieldMeta>)
    ensures Defaults(fields).Ok? <==> forall i :: 0 <= i < |fields| ==> DefaultVal(fields[i].field).Ok?
    ensures Defaults(fields).Ok? ==> forall i :: 0 <= i < |fields| ==> Defaults(fields).value[i] == DefaultVal(fields[i].field).value
  {
    if fields != [] {
      var init := fields[..|fields| - 1];
      DefaultsSpec(init);
      assert forall i :: 0 <= i < |init| ==> init[i] == fields[i];
    }
  }

  /** One key of a segment listed: the field list grows by its entry and the defaults by its default. */
  lemma ReadStep(f0: seq<FieldMeta>, seg: string, desc: Description, k: nat, fs: seq<FieldMeta>, dv: seq<Value>)
    requires k < |desc| && fs == f0 + FlattenDesc(seg, desc[..k]) && Defaults(fs) == Ok(dv)
    ensures fs + [FieldMeta(seg, desc[k].0, desc[k].1)] == f0 + FlattenDesc(seg, desc[..k + 1])
    ensures DefaultVal(desc[k].1).Ok? ==>
      Defaults(fs + [FieldMeta(seg, desc[k].0, desc[k].1)]) == Ok(dv + [DefaultVal(desc[k].1).value])
  {
    DefaultsSnoc(fs, FieldMeta(seg, desc[k].0, desc[k].1));
    FlattenDescSnoc(seg, desc, k);
  }

  /** Listing one more field: its default is appended, or its throw ends the listing. */
  lemma DefaultsSnoc(fs: seq<FieldMeta>, m: FieldMeta)
    ensures Defaults(fs).Ok? && DefaultVal(m.field).Ok? ==> Defaults(fs + [m]) == Ok(Defaults(fs).value + [DefaultVal(m.field).value])
  {
    assert (fs + [m])[..|fs|] == fs;
  }
}
