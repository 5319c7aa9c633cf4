/**
 * The record (src/model/model.ts): id, versions, meta and a positional payload,
 * driven by a copy-on-write state machine. In `eOff` a write changes the
 * payload in place; in `eOn` it hands a changed clone to a one-shot change
 * callback; in `eCollecting` (inside a mutation scope) it goes to a collector
 * clone that the scope delivers once at its end.
 *
 * The change callback is caller code; the model records what it receives in
 * `delivered`, in order. The state is the datatype `ModelState`; the class
 * `DeepModel` holds it in mutable fields, and its methods are proved against
 * the step functions below.
 */
module Model {
  import opened Wrappers
  import opened Values
  import Definition

  datatype Mode = eOff | eOn | eCollecting

  /** The change callback: not installed, installed and unused, or used (every further call throws). */
  datatype Listener = NoListener | Armed | Spent

  datatype ModelData = ModelData(id: Value, versions: seq<Value>, meta: seq<Prop>, payload: seq<Value>)

  datatype ModelState = ModelState(
    data: ModelData,
    mode: Mode,
    listener: Listener,
    collector: Option<ModelData>,
    delivered: seq<ModelData>)

  /** One write of a caller's callback: `updatePayload(index, value)`. */
  type Write = (nat, Value)

  const ConsecutiveMessage := "Can't run consecutive updates on immutable"

  /** A record freshly constructed around `data`: mutable, no callback. */
  function Initial(data: ModelData): ModelState
  {
    ModelState(data, eOff, NoListener, None, [])
  }

  /** `fromDataArray`: the id is slot 0 of the payload, versions and meta are empty. */
  function DataFromArray(payload: seq<Value>): (d: ModelData)
    ensures d.payload == payload && d.versions == [] && d.meta == []
    ensures |payload| > 0 ==> d.id == payload[0]
    ensures |payload| == 0 ==> d.id == Undef
  {
    ModelData(Definition.SlotOf(payload, 0), [], [], payload)
  }

  /** `_updatePayload`: a copy of the data with slot `i` replaced. */
  function Written(d: ModelData, i: nat, v: Value): (e: ModelData)
    ensures e.id == d.id && e.versions == d.versions && e.meta == d.meta
    ensures |e.payload| == if i < |d.payload| then |d.payload| else i + 1
    ensures e.payload[i] == v
    ensures forall j :: 0 <= j < |d.payload| && j != i ==> e.payload[j] == d.payload[j]
  {
    d.(payload := Definition.WriteAt(d.payload, i, v))
  }

  /** `immutable(cb)`: switch to `eOn` and install a fresh one-shot callback. */
  function ImmutableStep(s: ModelState): ModelState
  {
    s.(mode := eOn, listener := Armed)
  }

  /** Calling the change callback with `m`. */
  function DeliverStep(s: ModelState, m: ModelData): (ModelState, Outcome)
  {
    match s.listener
    case Armed => (s.(listener := Spent, delivered := s.delivered + [m]), Pass)
    case Spent => (s, Fail(ConsecutiveMessage))
    case NoListener => (s, Fail("_immutableOnChange is not a function"))
  }

  /** `updatePayload(i, v)`. */
  function UpdateStep(s: ModelState, i: nat, v: Value): (ModelState, Outcome)
  {
    match s.mode
    case eOff => (s.(data := Written(s.data, i, v)), Pass)
    case eOn => DeliverStep(s, Written(s.data, i, v))
    case eCollecting =>
      if s.collector.None? then (s, Fail("EChangeCollectorUndefined"))
      else (s.(collector := Some(Written(s.collector.value, i, v))), Pass)
  }

  /** A callback that performs `writes` in order; the first throw ends it. */
  function WritesStep(s: ModelState, writes: seq<Write>): (ModelState, Outcome)
    decreases |writes|
  {
    if writes == [] then (s, Pass)
    else
      var (s1, r1) := UpdateStep(s, writes[0].0, writes[0].1);
      if r1.Fail? then (s1, r1) else WritesStep(s1, writes[1..])
  }

  /** The payload after writing `writes` in order into `payload`. */
  function Overwrite(payload: seq<Value>, writes: seq<Write>): seq<Value>
    decreases |writes|
  {
    if writes == [] then payload
    else Overwrite(Definition.WriteAt(payload, writes[0].0, writes[0].1), writes[1..])
  }

  /**
   * `mutationScope(cb)` with `cb` performing `writes`: refused unless `eOn`;
   * otherwise the writes go to a clone that is delivered once at the end. A
   * throwing delivery leaves the collector in place.
   */
  function ScopeStep(s: ModelState, writes: seq<Write>): (ModelState, Outcome)
  {
    match s.mode
    case eOff => (s, Fail("Set immutable before calling mutationScope()"))
    case eCollecting => (s, Fail("ENoNestedExecution of mutationScope()"))
    case eOn =>
      var c := s.(mode := eCollecting, collector := Some(s.data));
      CollectingWrites(c, writes);
      var (s1, r1) := WritesStep(c, writes);
      if r1.Fail? then (s1, r1)
      else
        var (s2, r2) := DeliverStep(s1.(mode := eOn), s1.collector.value);
        if r2.Fail? then (s2, r2) else (s2.(collector := None), Pass)
  }

  // ---------------------------------------------------------------------------
  // Properties

  /** In `eOff` a write changes slot `i` of the payload in place and nothing else. */
  lemma UpdateOffWritesInPlace(s: ModelState, i: nat, v: Value)
    requires s.mode == eOff
    ensures UpdateStep(s, i, v).1 == Pass
    ensures UpdateStep(s, i, v).0.data.payload[i] == v
    ensures UpdateStep(s, i, v).0 == s.(data := UpdateStep(s, i, v).0.data)
    ensures forall j :: 0 <= j < |s.data.payload| && j != i ==> UpdateStep(s, i, v).0.data.payload[j] == s.data.payload[j]
  {
  }

  /**
   * In `eOn` a write leaves the record's data alone; the callback receives a
   * clone carrying the write if it is unused, and a used callback throws.
   */
  lemma UpdateOnDelivers(s: ModelState, i: nat, v: Value)
    requires s.mode == eOn
    ensures UpdateStep(s, i, v).0.data == s.data && UpdateStep(s, i, v).0.mode == eOn
    ensures s.listener == Armed ==>
      && UpdateStep(s, i, v).1 == Pass
      && UpdateStep(s, i, v).0.delivered == s.delivered + [Written(s.data, i, v)]
      && UpdateStep(s, i, v).0.listener == Spent
    ensures s.listener != Armed ==> UpdateStep(s, i, v).1.Fail? && UpdateStep(s, i, v).0 == s
  {
  }

  /** The callback installed by `immutable` delivers once: a second write throws. */
  lemma SecondDeliveryThrows(s: ModelState, i: nat, v: Value, j: nat, w: Value)
    ensures UpdateStep(ImmutableStep(s), i, v).1 == Pass
    ensures UpdateStep(UpdateStep(ImmutableStep(s), i, v).0, j, w) == (UpdateStep(ImmutableStep(s), i, v).0, Fail(ConsecutiveMessage))
  {
  }

  /** A mutation scope is refused outside `eOn`, without any change. */
  lemma ScopeRefusedUnlessOn(s: ModelState, writes: seq<Write>)
    requires s.mode != eOn
    ensures ScopeStep(s, writes).1.Fail? && ScopeStep(s, writes).0 == s
  {
  }

  /** Writes in `eCollecting` never throw and land, in order, on the collector only. */
  lemma {:induction false} CollectingWrites(s: ModelState, writes: seq<Write>)
    requires s.mode == eCollecting && s.collector.Some?
    ensures WritesStep(s, writes).1 == Pass
    ensures WritesStep(s, writes).0 == s.(collector := Some(s.collector.value.(payload := Overwrite(s.collector.value.payload, writes))))
    decreases |writes|
  {
    if writes != [] {
      var s1 := UpdateStep(s, writes[0].0, writes[0].1).0;
      CollectingWrites(s1, writes[1..]);
    } else {
      assert s.collector.value.(payload := s.collector.value.payload) == s.collector.value;
    }
  }

  /**
   * A mutation scope in `eOn` leaves the data alone, returns to `eOn` and
   * hands the callback, once, a clone carrying every write in order; with a
   * used callback it throws and the collector stays behind.
   */
  lemma ScopeDeliversOnce(s: ModelState, writes: seq<Write>)
    requires s.mode == eOn
    ensures ScopeStep(s, writes).0.data == s.data && ScopeStep(s, writes).0.mode == eOn
    ensures s.listener == Armed ==>
      && ScopeStep(s, writes).1 == Pass
      && ScopeStep(s, writes).0.delivered == s.delivered + [s.data.(payload := Overwrite(s.data.payload, writes))]
      && ScopeStep(s, writes).0.listener == Spent
      && ScopeStep(s, writes).0.collector == None
    ensures s.listener != Armed ==>
      && ScopeStep(s, writes).1.Fail?
      && ScopeStep(s, writes).0.delivered == s.delivered
      && ScopeStep(s, writes).0.collector.Some?
  {
    CollectingWrites(s.(mode := eCollecting, collector := Some(s.data)), writes);
  }

  /** Writes through `eOff` records are exactly `Overwrite`. */
  lemma {:induction false} OffWrites(s: ModelState, writes: seq<Write>)
    requires s.mode == eOff
    ensures WritesStep(s, writes) == (s.(data := s.data.(payload := Overwrite(s.data.payload, writes))), Pass)
    decreases |writes|
  {
    if writes != [] {
      OffWrites(UpdateStep(s, writes[0].0, writes[0].1).0, writes[1..]);
    } else {
      assert s.data.(payload := s.data.payload) == s.data;
    }
  }

  // ---------------------------------------------------------------------------
  // The record object

  class DeepModel {
    /** The fields of the record's activated definition. */
    const fields: seq<Definition.FieldMeta>
    var data: ModelData
    var mode: Mode
    var listener: Listener
    var collector: Option<ModelData>
    var delivered: seq<ModelData>

    function State(): ModelState
      reads this
    {
      ModelState(data, mode, listener, collector, delivered)
    }

    /** The protected constructor, used by every factory. */
    constructor (fields: seq<Definition.FieldMeta>, data: ModelData)
      ensures this.fields == fields
      ensures State() == Initial(data)
    {
      this.fields := fields;
      this.data := data;
      mode := eOff;
      listener := NoListener;
      collector := None;
      delivered := [];
    }

    /** `fromDataArray`. */
    static method FromDataArray(payload: seq<Value>, fields: seq<Definition.FieldMeta>) returns (m: DeepModel)
      ensures fresh(m) && m.fields == fields
      ensures m.State() == Initial(DataFromArray(payload))
    {
      m := new DeepModel(fields, ModelData(Definition.SlotOf(payload, 0), [], [], payload));
    }

    /** `fromTransferData`: the transferred id, versions, meta and payload. */
    static method FromTransferData(t: ModelData, fields: seq<Definition.FieldMeta>) returns (m: DeepModel)
      ensures fresh(m) && m.fields == fields
      ensures m.State() == Initial(t)
    {
      m := new DeepModel(fields, ModelData(t.id, t.versions, t.meta, t.payload));
    }

    /** `dataForTransfer`: the same id, versions and meta, and a copy of the payload. */
    function DataForTransfer(): (t: ModelData)
      reads this
      ensures t.id == data.id && t.versions == data.versions && t.meta == data.meta && t.payload == data.payload
    {
      ModelData(data.id, data.versions, data.meta, data.payload[..])
    }

    /** `getClone()`: a new mutable record over a copy of this record's data. */
    method GetClone() returns (c: DeepModel)
      ensures fresh(c) && c.fields == fields
      ensures c.State() == Initial(data)
    {
      c := new DeepModel(fields, ModelData(data.id, data.versions, data.meta, data.payload[..]));
    }

    /** `getClone(dataFrom)`: this record's definition over a copy of another record's data. */
    method GetCloneFrom(other: DeepModel) returns (c: DeepModel)
      ensures fresh(c) && c.fields == fields
      ensures c.State() == Initial(other.data)
    {
      c := new DeepModel(fields, other.data);
    }

    method Immutable()
      modifies this
      ensures State() == ImmutableStep(old(State()))
    {
      mode := eOn;
      listener := Armed;
    }

    method Deliver(m: ModelData) returns (r: Outcome)
      modifies this
      ensures (State(), r) == DeliverStep(old(State()), m)
    {
      match listener
      case Armed =>
        listener := Spent;
        delivered := delivered + [m];
        r := Pass;
      case Spent =>
        r := Fail(ConsecutiveMessage);
      case NoListener =>
        r := Fail("_immutableOnChange is not a function");
    }

    method UpdatePayload(i: nat, v: Value) returns (r: Outcome)
      modifies this
      ensures (State(), r) == UpdateStep(old(State()), i, v)
    {
      match mode
      case eOff =>
        data := Written(data, i, v);
        r := Pass;
      case eOn =>
        var next := GetClone();
        next.data := Written(next.data, i, v);
        r := Deliver(next.data);
      case eCollecting =>
        if collector.None? {
          r := Fail("EChangeCollectorUndefined");
        } else {
          collector := Some(Written(collector.value, i, v));
          r := Pass;
        }
    }

    /** `mutationScope(cb)` with a callback that performs `writes`. */
    method MutationScope(writes: seq<Write>) returns (r: Outcome)
      modifies this
      ensures (State(), r) == ScopeStep(old(State()), writes)
    {
      match mode
      case eOff =>
        r := Fail("Set immutable before calling mutationScope()");
      case eCollecting =>
        r := Fail("ENoNestedExecution of mutationScope()");
      case eOn =>
        mode := eCollecting;
        collector := Some(data);
        CollectingWrites(State(), writes);
        r := RunWrites(writes);
        if r.Fail? {
          return;
        }
        mode := eOn;
        r := Deliver(collector.value);
        if r.Pass? {
          collector := None;
        }
    }

    /** The caller's callback: its writes in order, stopping at the first throw. */
    method RunWrites(writes: seq<Write>) returns (r: Outcome)
      modifies this
      ensures (State(), r) == WritesStep(old(State()), writes)
    {
      var k := 0;
      while k < |writes|
        invariant 0 <= k <= |writes|
        invariant WritesStep(State(), writes[k..]) == WritesStep(old(State()), writes)
      {
        assert writes[k..][1..] == writes[k + 1..];
        r := UpdatePayload(writes[k].0, writes[k].1);
        if r.Fail? {
          return;
        }
        k := k + 1;
      }
      return Pass;
    }

    /**
     * `subModelFor(val, index, field)`: a record over one sub-model entry; when
     * this record is immutable the entry record is made immutable too, and its
     * callback writes back into this record (see `FPtrSub.UpdateChild`).
     */
    method SubModelFor(entry: seq<Value>, subFields: seq<Definition.FieldMeta>) returns (m: DeepModel)
      ensures fresh(m) && m.fields == subFields
      ensures mode == eOff ==> m.State() == Initial(DataFromArray(entry))
      ensures mode != eOff ==> m.State() == ImmutableStep(Initial(DataFromArray(entry)))
    {
      m := DeepModel.FromDataArray(entry, subFields);
      if mode != eOff {
        m.Immutable();
      }
    }
  }
}
