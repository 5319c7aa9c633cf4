/**
 * A filter over model records (src/filter/filter.ts): one field constraint per
 * field, in the order the fields were first constrained, and a flag that turns
 * false for good once an `add` leaves some field unfulfillable.
 *
 * Fields are named by the id of their description (the object the source uses
 * as map key). A record is seen through `Assignment`, the number it holds in
 * each field.
 */
module Filter {
  import opened Wrappers
  import opened Dict
  import Query
  import FilterField
  import Definition
  import ArraySet

  /** The number a record holds in each field, by field id. */
  type Assignment = nat -> real

  /** The filter's state: `_fullfillable` and the insertion-ordered map `_fields`. */
  datatype FilterVal = FilterVal(fullfillable: bool, order: seq<nat>, fields: map<nat, FilterField.FieldVal>)

  /** A freshly constructed filter. */
  const Empty := FilterVal(true, [], map[])

  /** The insertion order lists every key of the map exactly once. */
  ghost predicate WellFormed(f: FilterVal)
  {
    && (forall i, j :: 0 <= i < j < |f.order| ==> f.order[i] != f.order[j])
    && (forall id :: id in f.fields <==> id in f.order)
  }

  /** A record passes a filter when it passes every field constraint. */
  ghost predicate Passes(f: FilterVal, vals: Assignment)
  {
    forall id :: id in f.fields ==> FilterField.Passes(f.fields[id], vals(id))
  }

  /** Every field constraint on its own admits some value (the precondition of subtraction). */
  predicate FieldsFullfillable(f: FilterVal)
  {
    forall id :: id in f.fields ==> FilterField.IsFullfillable(f.fields[id])
  }

  function FieldOf(f: FilterVal, id: nat): FilterField.FieldVal
  {
    if id in f.fields then f.fields[id] else FilterField.Empty
  }

  /** `if (!fields.has(desc)) fields.set(desc, new DeepModelFilterField())`. */
  function Ensured(f: FilterVal, id: nat): (g: FilterVal)
    ensures id in g.fields && g.fields[id] == FieldOf(f, id)
    ensures g.fullfillable == f.fullfillable
  {
    if id in f.fields then f
    else f.(order := f.order + [id], fields := f.fields[id := FilterField.Empty])
  }

  /** `fields.set(desc, v)`: a new key goes last, an existing key keeps its place. */
  function SetField(f: FilterVal, id: nat, v: FilterField.FieldVal): (g: FilterVal)
    ensures id in g.fields && g.fields[id] == v
  {
    var e := Ensured(f, id);
    e.(fields := e.fields[id := v])
  }

  lemma EnsuredKeeps(f: FilterVal, id: nat, vals: Assignment)
    ensures WellFormed(f) ==> WellFormed(Ensured(f, id))
    ensures Passes(Ensured(f, id), vals) <==> Passes(f, vals)
  {
    FilterField.EmptyPassesAll(vals(id));
  }

  // ---------------------------------------------------------------------------
  // add

  /**
   * `add`: ignored once the filter is unfulfillable; otherwise the field is
   * created if missing and its constraint tightened. A throw of the field's
   * `add` leaves the created field in place; a false answer clears the flag.
   */
  function AddStep(f: FilterVal, id: nat, c: FilterField.Compare): (FilterVal, Outcome)
  {
    if !f.fullfillable then (f, Pass)
    else
      var g := Ensured(f, id);
      match FilterField.Added(g.fields[id], c)
      case Err(msg) => (g, Fail(msg))
      case Ok(res) => (g.(fields := g.fields[id := res.0], fullfillable := res.1), Pass)
  }

  /**
   * On a fulfillable filter, adding a known comparison conjoins exactly that
   * comparison on the field's value; an unfulfillable filter ignores every add.
   */
  lemma AddConjoins(f: FilterVal, id: nat, c: FilterField.Compare, vals: Assignment)
    ensures !f.fullfillable ==> AddStep(f, id, c) == (f, Pass)
    ensures f.fullfillable && c.Known? ==>
      && AddStep(f, id, c).1 == Pass
      && (Passes(AddStep(f, id, c).0, vals) <==> Passes(f, vals) && Query.Holds(c.op, vals(id)))
  {
    if f.fullfillable && c.Known? {
      var g := Ensured(f, id);
      EnsuredKeeps(f, id, vals);
      FilterField.AddConjoins(g.fields[id], c, vals(id));
      var h := FilterField.Added(g.fields[id], c).value.0;
      var r := AddStep(f, id, c).0;
      assert r.fields == g.fields[id := h];
      if !FilterField.IsFullfillable(g.fields[id]) {
        if FilterField.Passes(g.fields[id], vals(id)) {
          FilterField.PassesImpliesFullfillable(g.fields[id], vals(id));
        }
        assert !Passes(g, vals);
      }
      if Passes(r, vals) {
        forall k | k in g.fields ensures FilterField.Passes(g.fields[k], vals(k)) {
          if k != id { assert r.fields[k] == g.fields[k]; }
        }
      }
    }
  }

  /** Only an unknown operator key on a fulfillable field throws, and the created field stays. */
  lemma AddThrowsOnUnknownKey(f: FilterVal, id: nat, c: FilterField.Compare)
    requires f.fullfillable
    ensures AddStep(f, id, c).1.Fail? <==> c.Unknown? && FilterField.IsFullfillable(FieldOf(f, id))
    ensures AddStep(f, id, c).1.Fail? ==> AddStep(f, id, c).0 == Ensured(f, id)
  {
    FilterField.AddConjoins(FieldOf(f, id), c, 0.0);
  }

  /** A filter whose flag `add` cleared matches no record at all. */
  lemma AddUnfullfillableMatchesNothing(f: FilterVal, id: nat, c: FilterField.Compare, vals: Assignment)
    requires f.fullfillable && !AddStep(f, id, c).0.fullfillable
    ensures !Passes(AddStep(f, id, c).0, vals)
  {
    var g := Ensured(f, id);
    var x := vals(id);
    FilterField.AddConjoins(g.fields[id], c, x);
    var h := FilterField.Added(g.fields[id], c).value.0;
    assert !FilterField.IsFullfillable(h);
    if FilterField.Passes(h, x) {
      FilterField.PassesImpliesFullfillable(h, x);
    }
    assert AddStep(f, id, c).0.fields[id] == h;
  }

  /** `add` keeps the insertion order and the map in step. */
  lemma AddKeepsWellFormed(f: FilterVal, id: nat, c: FilterField.Compare)
    requires WellFormed(f)
    ensures WellFormed(AddStep(f, id, c).0)
    ensures f.fullfillable ==> id in AddStep(f, id, c).0.fields
  {
    EnsuredKeeps(f, id, x => 0.0);
  }

  // ---------------------------------------------------------------------------
  // _cloneDeep

  /** `_cloneDeep`: every field constraint copied, the flag not copied (a new filter's is true). */
  function Cloned(f: FilterVal): FilterVal
  {
    FilterVal(true, f.order, map id | id in f.fields :: FilterField.Copy(f.fields[id]))
  }

  /** `_cloneDeep` as written, through the faulty distinct `clone`. */
  function ClonedAsWritten(f: FilterVal): FilterVal
  {
    FilterVal(true, f.order, map id | id in f.fields :: FilterField.CopyAsWritten(f.fields[id]))
  }

  /** The corrected clone differs from the original only in the fulfillable flag. */
  lemma ClonedIsFaithful(f: FilterVal)
    ensures Cloned(f) == f.(fullfillable := true)
  {
    forall id | id in f.fields ensures FilterField.Copy(f.fields[id]) == f.fields[id] {
      FilterField.CopyIsFaithful(f.fields[id]);
    }
  }

  // ---------------------------------------------------------------------------
  // andNotEnsuredBy

  function CloneOf(a: FilterVal, asWritten: bool): FilterVal
  {
    if asWritten then ClonedAsWritten(a) else Cloned(a)
  }

  /**
   * The filters the factory hands out while `sub` subtracts itself: each is a
   * fresh clone of `a`, with the field `id` created if missing, whose field
   * `id` the subtraction then replaces.
   */
  function Candidates(a: FilterVal, id: nat, sub: FilterField.FieldVal, asWritten: bool): seq<FilterVal>
  {
    var base := Ensured(CloneOf(a, asWritten), id);
    var ps := FilterField.Subtract(sub, base.fields[id]);
    seq(|ps|, i requires 0 <= i < |ps| => base.(fields := base.fields[id := ps[i]]))
  }

  /** The `filter` that drops the candidates whose field `id` is not fulfillable. */
  function KeepFullfillable(cs: seq<FilterVal>, id: nat): seq<FilterVal>
  {
    if cs == [] then []
    else
      var last := cs[|cs| - 1];
      KeepFullfillable(cs[..|cs| - 1], id) + (if FilterField.IsFullfillable(FieldOf(last, id)) then [last] else [])
  }

  lemma KeepFullfillableSnoc(cs: seq<FilterVal>, i: nat, id: nat)
    requires i < |cs|
    ensures KeepFullfillable(cs[..i + 1], id)
      == KeepFullfillable(cs[..i], id) + (if FilterField.IsFullfillable(FieldOf(cs[i], id)) then [cs[i]] else [])
  {
    assert cs[..i + 1][..i] == cs[..i];
  }

  /** The `filter` keeps exactly the candidates whose field `id` is fulfillable. */
  lemma {:induction false} KeepFullfillableMembers(cs: seq<FilterVal>, id: nat, c: FilterVal)
    ensures c in KeepFullfillable(cs, id) <==> c in cs && FilterField.IsFullfillable(FieldOf(c, id))
  {
    if cs != [] {
      KeepFullfillableMembers(cs[..|cs| - 1], id, c);
      assert cs == cs[..|cs| - 1] + [cs[|cs| - 1]];
    }
  }

  /** What one field of `b` contributes. */
  function StageOf(a: FilterVal, id: nat, sub: FilterField.FieldVal, asWritten: bool): seq<FilterVal>
  {
    KeepFullfillable(Candidates(a, id, sub, asWritten), id)
  }

  /** The concatenation of a list of lists. */
  function Concat<T>(ss: seq<seq<T>>): seq<T>
  {
    if ss == [] then [] else Concat(ss[..|ss| - 1]) + ss[|ss| - 1]
  }

  lemma {:induction false} ConcatMembers<T>(ss: seq<seq<T>>, x: T)
    ensures x in Concat(ss) <==> exists k :: 0 <= k < |ss| && x in ss[k]
  {
    if ss != [] {
      var init := ss[..|ss| - 1];
      ConcatMembers(init, x);
      if exists k :: 0 <= k < |ss| && x in ss[k] {
        var k :| 0 <= k < |ss| && x in ss[k];
        if k < |init| {
          assert init[k] == ss[k];
        }
      }
      if exists k :: 0 <= k < |init| && x in init[k] {
        var k :| 0 <= k < |init| && x in init[k];
        assert ss[k] == init[k];
      }
    }
  }

  lemma ConcatSnoc<T>(ss: seq<seq<T>>, k: nat)
    requires k < |ss|
    ensures Concat(ss[..k + 1]) == Concat(ss[..k]) + ss[k]
  {
    assert ss[..k + 1][..k] == ss[..k];
  }

  /** The contributions of `b`'s fields, in `b`'s order. */
  function Stages(a: FilterVal, b: FilterVal, asWritten: bool): (ss: seq<seq<FilterVal>>)
    ensures |ss| == |b.order|
  {
    seq(|b.order|, k requires 0 <= k < |b.order| => StageOf(a, b.order[k], FieldOf(b, b.order[k]), asWritten))
  }

  /** `a.andNotEnsuredBy(b)`. */
  function Unensured(a: FilterVal, b: FilterVal): seq<FilterVal>
  {
    Concat(Stages(a, b, false))
  }

  /** `a.andNotEnsuredBy(b)` as written, with the faulty clone. */
  function UnensuredAsWritten(a: FilterVal, b: FilterVal): seq<FilterVal>
  {
    Concat(Stages(a, b, true))
  }

  lemma StagesMembers(a: FilterVal, b: FilterVal, asWritten: bool, r: FilterVal)
    ensures r in Concat(Stages(a, b, asWritten)) <==>
      exists k :: 0 <= k < |b.order| && r in Stages(a, b, asWritten)[k]
  {
    ConcatMembers(Stages(a, b, asWritten), r);
  }

  /** A candidate of the faithful clone admits only records `a` admits. */
  lemma CandidateRestricts(a: FilterVal, id: nat, sub: FilterField.FieldVal, c: FilterVal, vals: Assignment)
    requires c in Candidates(a, id, sub, false)
    requires Passes(c, vals)
    ensures Passes(a, vals)
  {
    ClonedIsFaithful(a);
    var base := Ensured(Cloned(a), id);
    var ps := FilterField.Subtract(sub, base.fields[id]);
    var cs := Candidates(a, id, sub, false);
    var i :| 0 <= i < |cs| && cs[i] == c;
    assert c == base.(fields := base.fields[id := ps[i]]);
    assert FilterField.Passes(ps[i], vals(id));
    FilterField.SubtractRestrictsBase(sub, base.fields[id], i, vals(id));
    forall k | k in a.fields ensures FilterField.Passes(a.fields[k], vals(k)) {
      if k != id {
        assert c.fields[k] == a.fields[k];
      }
    }
  }

  /** Soundness: every filter `andNotEnsuredBy` returns admits only records `a` admits. */
  lemma UnensuredSound(a: FilterVal, b: FilterVal, r: FilterVal, vals: Assignment)
    requires r in Unensured(a, b)
    requires Passes(r, vals)
    ensures Passes(a, vals)
  {
    StagesMembers(a, b, false, r);
    var k :| 0 <= k < |b.order| && r in Stages(a, b, false)[k];
    KeepFullfillableMembers(Candidates(a, b.order[k], FieldOf(b, b.order[k]), false), b.order[k], r);
    CandidateRestricts(a, b.order[k], FieldOf(b, b.order[k]), r, vals);
  }

  /**
   * Coverage: when every field constraint of `b` is fulfillable, a record that
   * `a` admits and `b` rejects is admitted by some returned filter, which is
   * fulfillable at the field it was split on.
   */
  lemma UnensuredCovers(a: FilterVal, b: FilterVal, vals: Assignment)
    requires WellFormed(b) && FieldsFullfillable(b)
    requires Passes(a, vals) && !Passes(b, vals)
    ensures exists r :: r in Unensured(a, b) && Passes(r, vals)
  {
    var id :| id in b.fields && !FilterField.Passes(b.fields[id], vals(id));
    var k :| 0 <= k < |b.order| && b.order[k] == id;
    StageCovers(a, id, b.fields[id], vals);
    var c :| c in StageOf(a, id, b.fields[id], false) && Passes(c, vals);
    assert c in Stages(a, b, false)[k];
    StagesMembers(a, b, false, c);
  }

  /** A record `a` admits and the field `sub` rejects is admitted by a filter of the stage for `sub`. */
  lemma StageCovers(a: FilterVal, id: nat, sub: FilterField.FieldVal, vals: Assignment)
    requires FilterField.IsFullfillable(sub)
    requires Passes(a, vals) && !FilterField.Passes(sub, vals(id))
    ensures exists c :: c in StageOf(a, id, sub, false) && Passes(c, vals)
  {
    ClonedIsFaithful(a);
    var base := Ensured(Cloned(a), id);
    FilterField.EmptyPassesAll(vals(id));
    assert FilterField.Passes(base.fields[id], vals(id));
    FilterField.SubtractCoversComplement(sub, base.fields[id], vals(id));
    var ps := FilterField.Subtract(sub, base.fields[id]);
    var i :| 0 <= i < |ps| && FilterField.Passes(ps[i], vals(id));
    var c := base.(fields := base.fields[id := ps[i]]);
    assert c == Candidates(a, id, sub, false)[i];
    FilterField.PassesImpliesFullfillable(ps[i], vals(id));
    KeepFullfillableMembers(Candidates(a, id, sub, false), id, c);
    OneFieldReplaced(a, c, id, vals);
  }

  /** A filter that differs from an admitting one only at `id`, where it admits the value, admits the record too. */
  lemma OneFieldReplaced(a: FilterVal, c: FilterVal, id: nat, vals: Assignment)
    requires Passes(a, vals) && id in c.fields && FilterField.Passes(c.fields[id], vals(id))
    requires forall j :: j in c.fields && j != id ==> j in a.fields && c.fields[j] == a.fields[j]
    ensures Passes(c, vals)
  {
    forall j | j in c.fields ensures FilterField.Passes(c.fields[j], vals(j)) {
      if j != id {
        assert c.fields[j] == a.fields[j];
      }
    }
  }

  /** Subtracting a filter without fields leaves nothing to cover. */
  lemma UnensuredByEmpty(a: FilterVal)
    ensures Unensured(a, Empty) == []
  {
  }

  /**
   * The split is per held value: against `$in [1, 2]` the result holds
   * `$nin [1]` and `$nin [2]` side by side, so a returned filter can admit a
   * record that `b` admits too; the results cover `a AND NOT b` but need not
   * lie inside it.
   */
  lemma UnensuredMayOverlapB()
    ensures var b := FilterVal(true, [0], map[0 := FilterField.Tighten(FilterField.Empty, Query.In([1.0, 2.0]))]);
      var vals: Assignment := k => 2.0;
      exists r :: r in Unensured(Empty, b) && Passes(r, vals) && Passes(b, vals)
  {
    var b := FilterVal(true, [0], map[0 := FilterField.Tighten(FilterField.Empty, Query.In([1.0, 2.0]))]);
    var vals: Assignment := k => 2.0;
    ArraySetFacts();
    assert b.fields[0].distinct.values == [1.0, 2.0];
    var base := Ensured(Cloned(Empty), 0);
    var ps := FilterField.Subtract(b.fields[0], base.fields[0]);
    assert ps[0].distinct.values == [1.0];
    var r := Candidates(Empty, 0, b.fields[0], false)[0];
    assert r.fields == map[0 := ps[0]];
    assert FilterField.Passes(ps[0], 2.0);
    assert Passes(r, vals);
    assert Passes(b, vals);
    KeepFullfillableMembers(Candidates(Empty, 0, b.fields[0], false), 0, r);
    assert r in Stages(Empty, b, false)[0];
    StagesMembers(Empty, b, false, r);
    assert r in Unensured(Empty, b);
  }

  lemma ArraySetFacts()
    ensures FilterField.Tighten(FilterField.Empty, Query.In([1.0, 2.0])).distinct.values == [1.0, 2.0]
    ensures FilterField.Subtract(FilterField.Tighten(FilterField.Empty, Query.In([1.0, 2.0])), FilterField.Empty)[0].distinct.values == [1.0]
  {
    assert [1.0, 2.0][1..] == [2.0];
  }

  /**
   * The faulty clone breaks soundness: with `a` = {0: `$nin [1]`} and
   * `b` = {1: `$in [2]`}, a returned filter admits the record (1, 3) although
   * `a` rejects it, because the copy of `a`'s field forgot the excluded value.
   */
  lemma UnensuredAsWrittenUnsound()
    ensures var a := FilterVal(true, [0], map[0 := FilterField.Tighten(FilterField.Empty, Query.Nin([1.0]))]);
      var b := FilterVal(true, [1], map[1 := FilterField.Tighten(FilterField.Empty, Query.In([2.0]))]);
      var vals: Assignment := k => if k == 0 then 1.0 else 3.0;
      exists r :: r in UnensuredAsWritten(a, b) && Passes(r, vals) && !Passes(a, vals)
  {
    var a := FilterVal(true, [0], map[0 := FilterField.Tighten(FilterField.Empty, Query.Nin([1.0]))]);
    var b := FilterVal(true, [1], map[1 := FilterField.Tighten(FilterField.Empty, Query.In([2.0]))]);
    var vals: Assignment := k => if k == 0 then 1.0 else 3.0;
    assert a.fields[0].distinct.values == [1.0];
    assert !FilterField.Passes(a.fields[0], 1.0);
    AsWrittenCandidatePasses(a, b, vals);
    var r := Candidates(a, 1, b.fields[1], true)[0];
    KeepFullfillableMembers(Candidates(a, 1, b.fields[1], true), 1, r);
    assert r in Stages(a, b, true)[0];
    StagesMembers(a, b, true, r);
  }

  /** The first candidate of the faulty subtraction in the example above admits the record (1, 3). */
  lemma AsWrittenCandidatePasses(a: FilterVal, b: FilterVal, vals: Assignment)
    requires a == FilterVal(true, [0], map[0 := FilterField.Tighten(FilterField.Empty, Query.Nin([1.0]))])
    requires b == FilterVal(true, [1], map[1 := FilterField.Tighten(FilterField.Empty, Query.In([2.0]))])
    requires vals(0) == 1.0 && vals(1) == 3.0
    ensures |Candidates(a, 1, b.fields[1], true)| > 0
    ensures Passes(Candidates(a, 1, b.fields[1], true)[0], vals)
  {
    assert a.fields[0].distinct.values == [1.0];
    assert b.fields[1].distinct.values == [2.0];
    var r := Candidates(a, 1, b.fields[1], true)[0];
    assert r.fields[0].distinct.values == [];
    assert r.fields[1].distinct.values == [2.0];
    assert r.fields.Keys == {0, 1};
    assert FilterField.Passes(r.fields[0], 1.0) && FilterField.Passes(r.fields[1], 3.0);
  }

  // ---------------------------------------------------------------------------
  // andNotEnsuredByMultiple

  /** One stage: every filter replaced, in order, by what `step` makes of it against `b`. */
  function Bind(fs: seq<FilterVal>, b: FilterVal, step: (FilterVal, FilterVal) -> seq<FilterVal>): seq<FilterVal>
  {
    if fs == [] then [] else Bind(fs[..|fs| - 1], b, step) + step(fs[|fs| - 1], b)
  }

  /** `[a]` put through the stages of `bs[..n]`, one after the other. */
  function Iterated(a: FilterVal, bs: seq<FilterVal>, n: nat, step: (FilterVal, FilterVal) -> seq<FilterVal>): seq<FilterVal>
    requires n <= |bs|
  {
    if n == 0 then [a] else Bind(Iterated(a, bs, n - 1, step), bs[n - 1], step)
  }

  /** One stage of `andNotEnsuredByMultiple`. */
  function AllUnensured(fs: seq<FilterVal>, b: FilterVal): seq<FilterVal>
  {
    Bind(fs, b, Unensured)
  }

  /** `a.andNotEnsuredByMultiple(bs)`. */
  function UnensuredMultiple(a: FilterVal, bs: seq<FilterVal>): seq<FilterVal>
  {
    Iterated(a, bs, |bs|, Unensured)
  }

  /** A filter of a stage comes from exactly one filter of the previous stage. */
  lemma {:induction false} BindMembers(fs: seq<FilterVal>, b: FilterVal, step: (FilterVal, FilterVal) -> seq<FilterVal>, r: FilterVal)
    ensures r in Bind(fs, b, step) <==> exists j :: 0 <= j < |fs| && r in step(fs[j], b)
  {
    if fs != [] {
      var init := fs[..|fs| - 1];
      BindMembers(init, b, step, r);
      if exists j :: 0 <= j < |fs| && r in step(fs[j], b) {
        var j :| 0 <= j < |fs| && r in step(fs[j], b);
        if j < |init| {
          assert init[j] == fs[j];
        }
      }
      if exists j :: 0 <= j < |init| && r in step(init[j], b) {
        var j :| 0 <= j < |init| && r in step(init[j], b);
        assert fs[j] == init[j];
      }
    }
  }

  lemma BindSnoc(fs: seq<FilterVal>, b: FilterVal, step: (FilterVal, FilterVal) -> seq<FilterVal>, j: nat)
    requires j < |fs|
    ensures Bind(fs[..j + 1], b, step) == Bind(fs[..j], b, step) + step(fs[j], b)
  {
    assert fs[..j + 1][..j] == fs[..j];
  }

  /** If no step admits a record its source rejects, no stage does. */
  lemma {:induction false} IteratedSound(a: FilterVal, bs: seq<FilterVal>, n: nat, step: (FilterVal, FilterVal) -> seq<FilterVal>,
                                         r: FilterVal, vals: Assignment)
    requires n <= |bs|
    requires forall p, b, x :: x in step(p, b) && Passes(x, vals) ==> Passes(p, vals)
    requires r in Iterated(a, bs, n, step) && Passes(r, vals)
    ensures Passes(a, vals)
  {
    if n > 0 {
      var prev := Iterated(a, bs, n - 1, step);
      BindMembers(prev, bs[n - 1], step, r);
      var j :| 0 <= j < |prev| && r in step(prev[j], bs[n - 1]);
      IteratedSound(a, bs, n - 1, step, prev[j], vals);
    }
  }

  /** If every step keeps a record some source admits, the last stage still admits it. */
  lemma {:induction false} IteratedWitness(a: FilterVal, bs: seq<FilterVal>, n: nat, step: (FilterVal, FilterVal) -> seq<FilterVal>,
                                           vals: Assignment) returns (r: FilterVal)
    requires n <= |bs|
    requires Passes(a, vals)
    requires forall i, p {:trigger step(p, bs[i])} :: 0 <= i < |bs| && Passes(p, vals) ==> exists x :: x in step(p, bs[i]) && Passes(x, vals)
    ensures r in Iterated(a, bs, n, step) && Passes(r, vals)
  {
    if n == 0 {
      r := a;
    } else {
      var p := IteratedWitness(a, bs, n - 1, step, vals);
      var prev := Iterated(a, bs, n - 1, step);
      r :| r in step(p, bs[n - 1]) && Passes(r, vals);
      var j :| 0 <= j < |prev| && prev[j] == p;
      BindMembers(prev, bs[n - 1], step, r);
    }
  }

  /** Every filter `andNotEnsuredByMultiple` returns admits only records `a` admits. */
  lemma MultipleSound(a: FilterVal, bs: seq<FilterVal>, r: FilterVal, vals: Assignment)
    requires r in UnensuredMultiple(a, bs) && Passes(r, vals)
    ensures Passes(a, vals)
  {
    forall p, b, x | x in Unensured(p, b) && Passes(x, vals) ensures Passes(p, vals) {
      UnensuredSound(p, b, x, vals);
    }
    IteratedSound(a, bs, |bs|, Unensured, r, vals);
  }

  /**
   * A record that `a` admits and every `b` (well-formed, of fulfillable
   * fields) rejects is admitted by some filter `andNotEnsuredByMultiple` returns.
   */
  lemma MultipleCovers(a: FilterVal, bs: seq<FilterVal>, vals: Assignment)
    requires forall i :: 0 <= i < |bs| ==> WellFormed(bs[i]) && FieldsFullfillable(bs[i]) && !Passes(bs[i], vals)
    requires Passes(a, vals)
    ensures exists r :: r in UnensuredMultiple(a, bs) && Passes(r, vals)
  {
    forall i, p | 0 <= i < |bs| && Passes(p, vals) ensures exists x :: x in Unensured(p, bs[i]) && Passes(x, vals) {
      UnensuredCovers(p, bs[i], vals);
    }
    var r := IteratedWitness(a, bs, |bs|, Unensured, vals);
  }

  // ---------------------------------------------------------------------------
  // JSON and Mongo forms

  /** The JSON form: field index to the field's JSON form. */
  type FilterJSON = seq<(int, FilterField.FieldJSON)>

  /** The keys of the MongoDB query document with their operator objects. */
  type MongoFilter = seq<(string, seq<Query.Op>)>

  /** `getFieldIndex` of each field of the filter, in the filter's order. */
  function Indices(f: FilterVal, defFields: seq<Definition.FieldMeta>): (r: seq<int>)
    ensures |r| == |f.order|
  {
    seq(|f.order|, k requires 0 <= k < |f.order| => Definition.FieldIndex(defFields, f.order[k]))
  }

  /** `toJSON` of each field constraint, in the filter's order. */
  function FieldJsons(f: FilterVal): (r: seq<FilterField.FieldJSON>)
    ensures |r| == |f.order|
  {
    seq(|f.order|, k requires 0 <= k < |f.order| => FilterField.ToJSON(FieldOf(f, f.order[k])))
  }

  /** `toJson`: refused for an unfulfillable filter; a field the definition lacks lands under key -1. */
  function JsonOf(f: FilterVal, defFields: seq<Definition.FieldMeta>): Result<FilterJSON>
  {
    if !f.fullfillable then Err("Can't generate JSON for not fullfillable filter")
    else Ok(PutAll(Indices(f, defFields), FieldJsons(f)))
  }

  function ParsedUpTo(j: FilterJSON, defFields: seq<Definition.FieldMeta>, n: nat): Result<FilterVal>
    requires n <= |j|
  {
    if n == 0 then Ok(Empty)
    else
      match ParsedUpTo(j, defFields, n - 1)
      case Err(e) => Err(e)
      case Ok(f) =>
        var idx := j[n - 1].0;
        if !(0 <= idx < |defFields|) then Err("Cannot read properties of undefined (reading 'field')")
        else Ok(SetField(f, defFields[idx].field.id, FilterField.FromJSON(j[n - 1].1)))
  }

  /** `fromJSON`: each entry sets the field its index names; an index outside the definition throws. */
  function Parsed(j: FilterJSON, defFields: seq<Definition.FieldMeta>): Result<FilterVal>
  {
    ParsedUpTo(j, defFields, |j|)
  }

  /** The TypeError of reading `segmentKey` from `defFields[-1]`. */
  const UndefinedMeta := "Cannot read properties of undefined (reading 'segmentKey')"

  function MongoKey(m: Definition.FieldMeta): string
  {
    "payload." + m.segmentKey + "." + m.key
  }

  /** Every field of the filter is a field of the definition. */
  predicate Indexed(f: FilterVal, defFields: seq<Definition.FieldMeta>)
  {
    forall k :: 0 <= k < |f.order| ==> Indices(f, defFields)[k] >= 0
  }

  /** The Mongo keys of the definition's fields at the places `ix`. */
  function KeysAt(defFields: seq<Definition.FieldMeta>, ix: seq<int>): (r: seq<string>)
    requires forall i :: 0 <= i < |ix| ==> 0 <= ix[i] < |defFields|
    ensures |r| == |ix|
  {
    seq(|ix|, i requires 0 <= i < |ix| => MongoKey(defFields[ix[i]]))
  }

  lemma KeysAtSnoc(defFields: seq<Definition.FieldMeta>, ix: seq<int>, k: nat)
    requires k < |ix| && forall i :: 0 <= i <= k ==> 0 <= ix[i] < |defFields|
    ensures KeysAt(defFields, ix[..k + 1]) == KeysAt(defFields, ix[..k]) + [MongoKey(defFields[ix[k]])]
  {
  }

  lemma MongoStep(defFields: seq<Definition.FieldMeta>, ix: seq<int>, ms: seq<seq<Query.Op>>, k: nat)
    requires k < |ix| == |ms| && forall i :: 0 <= i <= k ==> 0 <= ix[i] < |defFields|
    ensures PutAll(KeysAt(defFields, ix[..k + 1]), ms[..k + 1])
         == PutEntry(PutAll(KeysAt(defFields, ix[..k]), ms[..k]), MongoKey(defFields[ix[k]]), ms[k])
  {
    KeysAtSnoc(defFields, ix, k);
    PutAllAppend(KeysAt(defFields, ix[..k]), ms[..k], MongoKey(defFields[ix[k]]), ms[k]);
    assert ms[..k + 1] == ms[..k] + [ms[k]];
  }

  /** The Mongo key of each field of the filter, in the filter's order. */
  function MongoKeys(f: FilterVal, defFields: seq<Definition.FieldMeta>): (r: seq<string>)
    requires Indexed(f, defFields)
    ensures |r| == |f.order|
  {
    KeysAt(defFields, Indices(f, defFields))
  }

  /** `toMongo` of each field constraint, in the filter's order. */
  function FieldMongos(f: FilterVal): (r: seq<seq<Query.Op>>)
    ensures |r| == |f.order|
  {
    seq(|f.order|, k requires 0 <= k < |f.order| => FilterField.ToMongo(FieldOf(f, f.order[k])))
  }

  /**
   * `toMongo`: one assignment per field, keyed `payload.<segment>.<key>`; a
   * field the definition lacks makes `defFields[-1]` undefined, and reading
   * its `segmentKey` throws, abandoning the whole object.
   */
  function MongoOf(f: FilterVal, defFields: seq<Definition.FieldMeta>): Result<MongoFilter>
  {
    if !Indexed(f, defFields) then Err(UndefinedMeta)
    else Ok(PutAll(MongoKeys(f, defFields), FieldMongos(f)))
  }

  /** Distinct fields of the filter have distinct indices in the definition. */
  lemma IndicesDistinct(f: FilterVal, defFields: seq<Definition.FieldMeta>)
    requires WellFormed(f) && Indexed(f, defFields)
    ensures forall i, j :: 0 <= i < j < |f.order| ==> Indices(f, defFields)[i] != Indices(f, defFields)[j]
  {
    var ix := Indices(f, defFields);
    forall i, j | 0 <= i < j < |f.order| ensures ix[i] != ix[j] {
      assert defFields[ix[i]].field.id == f.order[i] && defFields[ix[j]].field.id == f.order[j];
    }
  }

  /** The filter `fromJSON` rebuilds from the first `n` entries of `toJson`'s output. */
  ghost function Restored(f: FilterVal, n: nat): FilterVal
    requires n <= |f.order|
  {
    FilterVal(true, f.order[..n], map id | id in f.order[..n] :: FilterField.FromJSON(FilterField.ToJSON(FieldOf(f, id))))
  }

  lemma RestoredStep(f: FilterVal, n: nat)
    requires 0 < n <= |f.order|
    requires forall i :: 0 <= i < n - 1 ==> f.order[i] != f.order[n - 1]
    ensures var id := f.order[n - 1];
      SetField(Restored(f, n - 1), id, FilterField.FromJSON(FilterField.ToJSON(FieldOf(f, id)))) == Restored(f, n)
  {
    var id := f.order[n - 1];
    assert id !in f.order[..n - 1];
    assert f.order[..n] == f.order[..n - 1] + [id];
  }

  lemma ParsedStep(j: FilterJSON, defFields: seq<Definition.FieldMeta>, n: nat)
    requires n < |j| && ParsedUpTo(j, defFields, n).Ok?
    requires 0 <= j[n].0 < |defFields|
    ensures ParsedUpTo(j, defFields, n + 1)
         == Ok(SetField(ParsedUpTo(j, defFields, n).value, defFields[j[n].0].field.id, FilterField.FromJSON(j[n].1)))
  {
  }

  /** `fields.set(id, v)` spelled out on the two parts of the state. */
  lemma SetFieldParts(f: FilterVal, id: nat, v: FilterField.FieldVal)
    ensures SetField(f, id, v) == FilterVal(f.fullfillable, if id in f.fields then f.order else f.order + [id], f.fields[id := v])
  {
  }

  /** The first `n` keys of `j` parse to the first `n` fields of `f`, restored. */
  ghost predicate ParsedAs(f: FilterVal, defFields: seq<Definition.FieldMeta>, j: FilterJSON, n: nat)
    requires n <= |j| && n <= |f.order|
  {
    ParsedUpTo(j, defFields, n) == Ok(Restored(f, n))
  }

  /** `j` lists the fields of `f` in order: key `k` is the index of field `f.order[k]` and holds its JSON. */
  ghost predicate ListsFields(f: FilterVal, defFields: seq<Definition.FieldMeta>, j: FilterJSON)
  {
    && (forall i, k :: 0 <= i < k < |f.order| ==> f.order[i] != f.order[k])
    && |j| == |f.order|
    && (forall k :: 0 <= k < |j| ==> 0 <= j[k].0 < |defFields| && defFields[j[k].0].field.id == f.order[k])
    && (forall k :: 0 <= k < |j| ==> j[k].1 == FilterField.ToJSON(FieldOf(f, f.order[k])))
  }

  /** The `n`-th key names the field `f.order[n - 1]` and holds its JSON, so parsing it restores that field. */
  lemma ParsedShapeStep(f: FilterVal, defFields: seq<Definition.FieldMeta>, j: FilterJSON, n: nat)
    requires ListsFields(f, defFields, j) && 0 < n <= |j|
    requires ParsedAs(f, defFields, j, n - 1)
    ensures ParsedAs(f, defFields, j, n)
  {
    assert defFields[j[n - 1].0].field.id == f.order[n - 1];
    assert j[n - 1].1 == FilterField.ToJSON(FieldOf(f, f.order[n - 1]));
    ParsedStep(j, defFields, n - 1);
    RestoredStep(f, n);
  }

  lemma {:induction false} ParsedShape(f: FilterVal, defFields: seq<Definition.FieldMeta>, j: FilterJSON, n: nat)
    requires ListsFields(f, defFields, j) && n <= |j|
    ensures ParsedAs(f, defFields, j, n)
  {
    if n > 0 {
      ParsedShape(f, defFields, j, n - 1);
      ParsedShapeStep(f, defFields, j, n);
    }
  }

  /** `fromJSON(toJson(f))` is the filter `Restored` describes. */
  lemma JsonParsesToRestored(f: FilterVal, defFields: seq<Definition.FieldMeta>)
    requires WellFormed(f) && f.fullfillable && Indexed(f, defFields)
    ensures JsonOf(f, defFields).Ok?
    ensures Parsed(JsonOf(f, defFields).value, defFields) == Ok(Restored(f, |f.order|))
  {
    var ix := Indices(f, defFields);
    IndicesDistinct(f, defFields);
    PutAllDistinct(ix, FieldJsons(f));
    var j := PutAll(ix, FieldJsons(f));
    forall k | 0 <= k < |j| ensures 0 <= j[k].0 < |defFields| && defFields[j[k].0].field.id == f.order[k] {
      assert j[k].0 == ix[k];
    }
    ParsedShape(f, defFields, j, |f.order|);
  }

  /** The restored filter has the same fields in the same order, each admitting the same values. */
  lemma RestoredFaithful(f: FilterVal, vals: Assignment)
    requires WellFormed(f)
    ensures var g := Restored(f, |f.order|);
      && WellFormed(g) && g.fullfillable && g.order == f.order && g.fields.Keys == f.fields.Keys
      && (Passes(g, vals) <==> Passes(f, vals))
  {
    var g := Restored(f, |f.order|);
    assert f.order[..|f.order|] == f.order;
    forall id | id in f.fields
      ensures FilterField.Passes(g.fields[id], vals(id)) <==> FilterField.Passes(f.fields[id], vals(id))
    {
      FilterField.JSONRoundTrip(f.fields[id], vals(id));
    }
  }

  /**
   * `fromJSON(toJson(f))` restores a fulfillable filter whose fields the
   * definition knows: the same fields in the same order, each admitting the
   * same values.
   */
  lemma JsonRoundTrip(f: FilterVal, defFields: seq<Definition.FieldMeta>, vals: Assignment)
    requires WellFormed(f) && f.fullfillable && Indexed(f, defFields)
    ensures JsonOf(f, defFields).Ok?
    ensures Parsed(JsonOf(f, defFields).value, defFields).Ok?
    ensures var g := Parsed(JsonOf(f, defFields).value, defFields).value;
      && WellFormed(g) && g.fullfillable && g.order == f.order && g.fields.Keys == f.fields.Keys
      && (Passes(g, vals) <==> Passes(f, vals))
  {
    JsonParsesToRestored(f, defFields);
    RestoredFaithful(f, vals);
  }

  lemma ParsedFailsAt(j: FilterJSON, defFields: seq<Definition.FieldMeta>, k: nat)
    requires k < |j| && !(0 <= j[k].0 < |defFields|)
    ensures Parsed(j, defFields).Err?
  {
    ParsedFailsOnBadIndex(j, defFields, |j|);
  }

  lemma {:induction false} ParsedFailsOnBadIndex(j: FilterJSON, defFields: seq<Definition.FieldMeta>, n: nat)
    requires n <= |j|
    ensures ParsedUpTo(j, defFields, n).Err? <==> exists k :: 0 <= k < n && !(0 <= j[k].0 < |defFields|)
  {
    if n > 0 {
      ParsedFailsOnBadIndex(j, defFields, n - 1);
    }
  }

  /**
   * `toJson` itself does not object to a field the definition lacks; it writes
   * the key -1, which `fromJSON` then refuses.
   */
  lemma JsonOfUnknownFieldNotParsable(f: FilterVal, defFields: seq<Definition.FieldMeta>, k: nat)
    requires f.fullfillable && k < |f.order|
    requires Definition.FieldIndex(defFields, f.order[k]) < 0
    ensures JsonOf(f, defFields).Ok?
    ensures Parsed(JsonOf(f, defFields).value, defFields).Err?
  {
    var j := JsonOf(f, defFields).value;
    PutAllHas(Indices(f, defFields), FieldJsons(f), k);
    var i :| 0 <= i < |j| && j[i].0 == -1;
    ParsedFailsOnBadIndex(j, defFields, |j|);
  }

  /** Distinct fields of the definition have distinct Mongo keys. */
  predicate MongoKeysUnique(defFields: seq<Definition.FieldMeta>)
  {
    forall i, j :: 0 <= i < j < |defFields| ==> MongoKey(defFields[i]) != MongoKey(defFields[j])
  }

  /** Distinct fields of the filter get distinct Mongo keys. */
  lemma MongoKeysDistinct(f: FilterVal, defFields: seq<Definition.FieldMeta>)
    requires WellFormed(f) && Indexed(f, defFields) && MongoKeysUnique(defFields)
    ensures forall i, j :: 0 <= i < j < |f.order| ==> MongoKeys(f, defFields)[i] != MongoKeys(f, defFields)[j]
  {
    var ix := Indices(f, defFields);
    IndicesDistinct(f, defFields);
    var ks := MongoKeys(f, defFields);
    forall i, j | 0 <= i < j < |f.order| ensures ks[i] != ks[j] {
      assert ks[i] == MongoKey(defFields[ix[i]]) && ks[j] == MongoKey(defFields[ix[j]]);
      if ix[i] < ix[j] {
        assert MongoKey(defFields[ix[i]]) != MongoKey(defFields[ix[j]]);
      } else {
        assert MongoKey(defFields[ix[j]]) != MongoKey(defFields[ix[i]]);
      }
    }
  }

  /** `toMongo` throws exactly when some field of the filter is missing from the definition. */
  lemma MongoFailsIff(f: FilterVal, defFields: seq<Definition.FieldMeta>)
    ensures MongoOf(f, defFields).Err? <==> exists k :: 0 <= k < |f.order| && Definition.FieldIndex(defFields, f.order[k]) < 0
    ensures MongoOf(f, defFields).Err? ==> MongoOf(f, defFields).msg == UndefinedMeta
  {
    if !Indexed(f, defFields) {
      var k :| 0 <= k < |f.order| && Indices(f, defFields)[k] < 0;
      assert Definition.FieldIndex(defFields, f.order[k]) < 0;
    }
    if exists k :: 0 <= k < |f.order| && Definition.FieldIndex(defFields, f.order[k]) < 0 {
      var k :| 0 <= k < |f.order| && Definition.FieldIndex(defFields, f.order[k]) < 0;
      assert Indices(f, defFields)[k] < 0;
    }
  }

  /**
   * When the definition knows every field of the filter and its places give
   * distinct keys, `toMongo` holds one key per field, in the filter's order,
   * each the field's `payload.<segment>.<key>` with its operator object.
   */
  lemma MongoShape(f: FilterVal, defFields: seq<Definition.FieldMeta>)
    requires WellFormed(f) && Indexed(f, defFields) && MongoKeysUnique(defFields)
    ensures MongoOf(f, defFields).Ok?
    ensures var m := MongoOf(f, defFields).value;
      && |m| == |f.order|
      && forall k :: 0 <= k < |m| ==>
           m[k] == (MongoKey(defFields[Indices(f, defFields)[k]]), FilterField.ToMongo(f.fields[f.order[k]]))
  {
    MongoKeysDistinct(f, defFields);
    PutAllDistinct(MongoKeys(f, defFields), FieldMongos(f));
  }

  /**
   * A record matches every operator object of `toMongo` iff it passes the
   * filter; the flag plays no part.
   */
  lemma MongoMeansPasses(f: FilterVal, defFields: seq<Definition.FieldMeta>, vals: Assignment)
    requires WellFormed(f) && Indexed(f, defFields) && MongoKeysUnique(defFields)
    ensures MongoOf(f, defFields).Ok? && |MongoOf(f, defFields).value| == |f.order|
    ensures var m := MongoOf(f, defFields).value;
      (forall k :: 0 <= k < |m| ==> Query.Matches(m[k].1, vals(f.order[k]))) <==> Passes(f, vals)
  {
    MongoShape(f, defFields);
    var m := MongoOf(f, defFields).value;
    forall k | 0 <= k < |m|
      ensures Query.Matches(m[k].1, vals(f.order[k])) <==> FilterField.Passes(f.fields[f.order[k]], vals(f.order[k]))
    {
      FilterField.ToMongoMeansPasses(f.fields[f.order[k]], vals(f.order[k]));
    }
    if forall k :: 0 <= k < |m| ==> Query.Matches(m[k].1, vals(f.order[k])) {
      forall id | id in f.fields ensures FilterField.Passes(f.fields[id], vals(id)) {
        var k :| 0 <= k < |f.order| && f.order[k] == id;
      }
    }
  }

  // ---------------------------------------------------------------------------
  // Every filter the operations produce is well formed

  /** `fields.set(id, v)` keeps the insertion order and the map in step. */
  lemma SetFieldKeepsWellFormed(f: FilterVal, id: nat, v: FilterField.FieldVal)
    requires WellFormed(f)
    ensures WellFormed(SetField(f, id, v))
  {
    EnsuredKeeps(f, id, x => 0.0);
  }

  /** Every prefix of `fromJSON` that parses gives a well-formed filter. */
  lemma {:induction false} ParsedWellFormed(j: FilterJSON, defFields: seq<Definition.FieldMeta>, n: nat)
    requires n <= |j|
    ensures ParsedUpTo(j, defFields, n).Ok? ==> WellFormed(ParsedUpTo(j, defFields, n).value)
  {
    if n > 0 {
      ParsedWellFormed(j, defFields, n - 1);
      var p := ParsedUpTo(j, defFields, n - 1);
      if p.Ok? && 0 <= j[n - 1].0 < |defFields| {
        SetFieldKeepsWellFormed(p.value, defFields[j[n - 1].0].field.id, FilterField.FromJSON(j[n - 1].1));
      }
    }
  }

  /** `_cloneDeep` keeps the insertion order and copies every field, so it keeps well-formedness. */
  lemma ClonedWellFormed(f: FilterVal, asWritten: bool)
    requires WellFormed(f)
    ensures WellFormed(CloneOf(f, asWritten))
    ensures CloneOf(f, asWritten).order == f.order && CloneOf(f, asWritten).fields.Keys == f.fields.Keys
  {
  }

  /** Each candidate of a well-formed filter is well formed: it only replaces the field it created. */
  lemma CandidateWellFormed(a: FilterVal, id: nat, sub: FilterField.FieldVal, asWritten: bool, c: FilterVal)
    requires WellFormed(a) && c in Candidates(a, id, sub, asWritten)
    ensures WellFormed(c)
  {
    ClonedWellFormed(a, asWritten);
    var base := Ensured(CloneOf(a, asWritten), id);
    EnsuredKeeps(CloneOf(a, asWritten), id, x => 0.0);
    var ps := FilterField.Subtract(sub, base.fields[id]);
    var i :| 0 <= i < |ps| && c == base.(fields := base.fields[id := ps[i]]);
    assert c.fields.Keys == base.fields.Keys;
  }

  /** Every filter `andNotEnsuredBy` returns for a well-formed receiver is well formed. */
  lemma UnensuredWellFormed(a: FilterVal, b: FilterVal, r: FilterVal)
    requires WellFormed(a) && r in Unensured(a, b)
    ensures WellFormed(r)
  {
    StagesMembers(a, b, false, r);
    var k :| 0 <= k < |b.order| && r in Stages(a, b, false)[k];
    var id := b.order[k];
    KeepFullfillableMembers(Candidates(a, id, FieldOf(b, id), false), id, r);
    CandidateWellFormed(a, id, FieldOf(b, id), false, r);
  }

  /** If every step keeps well-formedness, so does every stage. */
  lemma {:induction false} IteratedWellFormed(a: FilterVal, bs: seq<FilterVal>, n: nat, step: (FilterVal, FilterVal) -> seq<FilterVal>,
                                              r: FilterVal)
    requires n <= |bs| && WellFormed(a)
    requires forall p, b, x :: x in step(p, b) && WellFormed(p) ==> WellFormed(x)
    requires r in Iterated(a, bs, n, step)
    ensures WellFormed(r)
  {
    if n > 0 {
      var prev := Iterated(a, bs, n - 1, step);
      BindMembers(prev, bs[n - 1], step, r);
      var j :| 0 <= j < |prev| && r in step(prev[j], bs[n - 1]);
      IteratedWellFormed(a, bs, n - 1, step, prev[j]);
    }
  }

  /** Every filter `andNotEnsuredByMultiple` returns for a well-formed receiver is well formed. */
  lemma MultipleWellFormed(a: FilterVal, bs: seq<FilterVal>, r: FilterVal)
    requires WellFormed(a) && r in UnensuredMultiple(a, bs)
    ensures WellFormed(r)
  {
    forall p, b, x | x in Unensured(p, b) && WellFormed(p) ensures WellFormed(x) {
      UnensuredWellFormed(p, b, x);
    }
    IteratedWellFormed(a, bs, |bs|, Unensured, r);
  }

  // ---------------------------------------------------------------------------
  // The filter object

  /** The models of a list of filter objects. */
  ghost function Models(fs: seq<Filter>): (ms: seq<FilterVal>)
    reads set f | f in fs
    ensures |ms| == |fs|
    ensures forall i :: 0 <= i < |fs| ==> ms[i] == fs[i].Model()
  {
    if fs == [] then [] else Models(fs[..|fs| - 1]) + [fs[|fs| - 1].Model()]
  }

  /** The filters' states, in order, are `ms`. */
  ghost predicate ModelsAre(fs: seq<Filter>, ms: seq<FilterVal>)
    reads set f | f in fs
  {
    |fs| == |ms| && forall i :: 0 <= i < |fs| ==> fs[i].Model() == ms[i]
  }

  lemma ModelsAreAppend(r: seq<Filter>, t: seq<Filter>, rm: seq<FilterVal>, tm: seq<FilterVal>)
    requires ModelsAre(r, rm) && ModelsAre(t, tm)
    ensures ModelsAre(r + t, rm + tm)
  {
  }

  class Filter {
    var fullfillable: bool
    var order: seq<nat>
    var fields: map<nat, FilterField.FieldVal>

    function Model(): FilterVal
      reads this
    {
      FilterVal(fullfillable, order, fields)
    }

    ghost predicate Valid()
      reads this
    {
      WellFormed(Model())
    }

    constructor ()
      ensures Model() == Empty && Valid()
    {
      fullfillable, order, fields := true, [], map[];
    }

    constructor Of(v: FilterVal)
      ensures Model() == v
      ensures Valid() <==> WellFormed(v)
    {
      fullfillable, order, fields := v.fullfillable, v.order, v.fields;
    }

    static method FromJson(j: FilterJSON, defFields: seq<Definition.FieldMeta>) returns (r: Result<Filter>)
      ensures r.Ok? <==> Parsed(j, defFields).Ok?
      ensures r.Ok? ==> fresh(r.value) && r.value.Model() == Parsed(j, defFields).value
      ensures r.Ok? ==> r.value.Valid()
    {
      var filter := new Filter();
      ghost var cur := filter.Model();
      var k := 0;
      while k < |j|
        invariant 0 <= k <= |j|
        invariant fresh(filter)
        invariant ParsedUpTo(j, defFields, k) == Ok(cur)
        invariant filter.Model() == cur && filter.Valid()
      {
        var idx := j[k].0;
        if !(0 <= idx < |defFields|) {
          ParsedFailsAt(j, defFields, k);
          return Err("Cannot read properties of undefined (reading 'field')");
        }
        var id := defFields[idx].field.id;
        ParsedStep(j, defFields, k);
        filter.Put(id, FilterField.FromJSON(j[k].1));
        cur := SetField(cur, id, FilterField.FromJSON(j[k].1));
        k := k + 1;
      }
      r := Ok(filter);
    }

    /** `_fields.set(id, v)`: a new key goes to the end of the insertion order, an existing one keeps its place. */
    method Put(id: nat, v: FilterField.FieldVal)
      requires Valid()
      modifies this
      ensures Model() == SetField(old(Model()), id, v)
      ensures Valid()
    {
      SetFieldParts(Model(), id, v);
      SetFieldKeepsWellFormed(Model(), id, v);
      if id !in fields {
        order := order + [id];
      }
      fields := fields[id := v];
    }

    method Add(id: nat, c: FilterField.Compare) returns (r: Outcome)
      requires Valid()
      modifies this
      ensures (Model(), r) == AddStep(old(Model()), id, c)
      ensures Valid()
    {
      AddKeepsWellFormed(Model(), id, c);
      if !fullfillable {
        return Pass;
      }
      if id !in fields {
        order, fields := order + [id], fields[id := FilterField.Empty];
      }
      var res := FilterField.Added(fields[id], c);
      match res {
        case Err(msg) =>
          r := Fail(msg);
        case Ok(p) =>
          fields := fields[id := p.0];
          if !p.1 {
            fullfillable := false;
          }
          r := Pass;
      }
    }

    method ToJson(defFields: seq<Definition.FieldMeta>) returns (r: Result<FilterJSON>)
      ensures r == JsonOf(Model(), defFields)
    {
      if !fullfillable {
        return Err("Can't generate JSON for not fullfillable filter");
      }
      ghost var ix, js := Indices(Model(), defFields), FieldJsons(Model());
      var json: FilterJSON := [];
      var k := 0;
      while k < |order|
        invariant 0 <= k <= |order|
        invariant json == PutAll(ix[..k], js[..k])
      {
        var id := order[k];
        var idx := Definition.FieldIndex(defFields, id);
        PutAllStep(ix, js, k);
        json := PutEntry(json, idx, FilterField.ToJSON(FieldOf(Model(), id)));
        k := k + 1;
      }
      assert ix[..k] == ix && js[..k] == js;
      r := Ok(json);
    }

    method ToMongo(defFields: seq<Definition.FieldMeta>) returns (r: Result<MongoFilter>)
      ensures r == MongoOf(Model(), defFields)
    {
      ghost var fm := Model();
      ghost var ix, ms := Indices(fm, defFields), FieldMongos(fm);
      var mongo: MongoFilter := [];
      var k := 0;
      while k < |order|
        invariant 0 <= k <= |order|
        invariant forall i :: 0 <= i < k ==> 0 <= ix[i] < |defFields|
        invariant mongo == PutAll(KeysAt(defFields, ix[..k]), ms[..k])
        invariant fm == Model()
      {
        var id := order[k];
        var idx := Definition.FieldIndex(defFields, id);
        assert idx == ix[k];
        if idx < 0 {
          return Err(UndefinedMeta);
        }
        MongoStep(defFields, ix, ms, k);
        mongo := PutEntry(mongo, MongoKey(defFields[idx]), FilterField.ToMongo(FieldOf(Model(), id)));
        k := k + 1;
      }
      assert ix[..k] == ix && ms[..k] == ms;
      r := Ok(mongo);
    }

    method CloneDeep() returns (c: Filter)
      ensures fresh(c) && c.Model() == Cloned(Model())
      ensures Valid() ==> c.Valid()
    {
      if Valid() {
        ClonedWellFormed(Model(), false);
      }
      c := new Filter();
      c.order := order;
      c.fields := map id | id in fields :: FilterField.Copy(fields[id]);
    }

    /** The filters of one field of `b`: the candidates whose field `id` stays fulfillable. */
    method StageFilters(id: nat, sub: FilterField.FieldVal) returns (r: seq<Filter>)
      ensures forall i :: 0 <= i < |r| ==> fresh(r[i])
      ensures ModelsAre(r, StageOf(Model(), id, sub, false))
      ensures Valid() ==> forall i :: 0 <= i < |r| ==> r[i].Valid()
    {
      r := KeepObjects(Candidates(Model(), id, sub, false), id);
      forall i | 0 <= i < |r| && Valid()
        ensures r[i].Valid()
      {
        var cs := Candidates(Model(), id, sub, false);
        assert r[i].Model() in KeepFullfillable(cs, id);
        KeepFullfillableMembers(cs, id, r[i].Model());
        CandidateWellFormed(Model(), id, sub, false, r[i].Model());
      }
    }

    method AndNotEnsuredBy(b: Filter) returns (r: seq<Filter>)
      ensures forall i :: 0 <= i < |r| ==> fresh(r[i])
      ensures ModelsAre(r, Unensured(Model(), b.Model()))
      ensures Valid() ==> forall i :: 0 <= i < |r| ==> r[i].Valid()
    {
      ghost var a, bm := Model(), b.Model();
      ghost var ss := Stages(a, bm, false);
      r := [];
      var k := 0;
      while k < |b.order|
        invariant 0 <= k <= |b.order|
        invariant forall i :: 0 <= i < |r| ==> fresh(r[i])
        invariant ModelsAre(r, Concat(ss[..k]))
      {
        var id := b.order[k];
        var stage := StageFilters(id, FieldOf(b.Model(), id));
        ConcatSnoc(ss, k);
        ModelsAreAppend(r, stage, Concat(ss[..k]), ss[k]);
        r := r + stage;
        k := k + 1;
      }
      assert ss[..k] == ss;
      forall i | 0 <= i < |r| && Valid()
        ensures r[i].Valid()
      {
        assert r[i].Model() in Unensured(a, bm);
        UnensuredWellFormed(a, bm, r[i].Model());
      }
    }

    method AndNotEnsuredByMultiple(bs: seq<Filter>) returns (r: seq<Filter>)
      ensures ModelsAre(r, UnensuredMultiple(Model(), Models(bs)))
      ensures bs == [] ==> r == [this]
      ensures bs != [] ==> forall i :: 0 <= i < |r| ==> fresh(r[i])
      ensures Valid() ==> forall i :: 0 <= i < |r| ==> r[i].Valid()
    {
      ghost var a, ms := Model(), Models(bs);
      r := [this];
      var i := 0;
      while i < |bs|
        invariant 0 <= i <= |bs|
        invariant ModelsAre(r, Iterated(a, ms, i, Unensured))
        invariant i == 0 ==> r == [this]
        invariant i > 0 ==> forall k :: 0 <= k < |r| ==> fresh(r[k])
      {
        r := AllAndNot(r, bs[i], Iterated(a, ms, i, Unensured), ms[i]);
        i := i + 1;
      }
      forall k | 0 <= k < |r| && Valid()
        ensures r[k].Valid()
      {
        assert r[k].Model() in UnensuredMultiple(a, ms);
        MultipleWellFormed(a, ms, r[k].Model());
      }
    }
  }

  /** One stage of `andNotEnsuredByMultiple`: the results of every filter against `b`, in order. */
  method AllAndNot(fs: seq<Filter>, b: Filter, ghost ms: seq<FilterVal>, ghost bm: FilterVal) returns (next: seq<Filter>)
    requires ModelsAre(fs, ms) && b.Model() == bm
    ensures forall k :: 0 <= k < |next| ==> fresh(next[k])
    ensures ModelsAre(next, AllUnensured(ms, bm))
  {
    next := [];
    var j := 0;
    while j < |fs|
      invariant 0 <= j <= |fs|
      invariant forall k :: 0 <= k < |next| ==> fresh(next[k])
      invariant ModelsAre(next, Bind(ms[..j], bm, Unensured))
      invariant ModelsAre(fs, ms) && b.Model() == bm
    {
      assert fs[j].Model() == ms[j];
      var part := fs[j].AndNotEnsuredBy(b);
      AllAndNotStep(next, part, ms, bm, j);
      next := next + part;
      j := j + 1;
    }
    assert ms[..|fs|] == ms;
  }

  lemma AllAndNotStep(next: seq<Filter>, part: seq<Filter>, ms: seq<FilterVal>, bm: FilterVal, j: nat)
    requires j < |ms|
    requires ModelsAre(next, Bind(ms[..j], bm, Unensured)) && ModelsAre(part, Unensured(ms[j], bm))
    ensures ModelsAre(next + part, Bind(ms[..j + 1], bm, Unensured))
  {
    BindSnoc(ms, bm, Unensured, j);
    ModelsAreAppend(next, part, Bind(ms[..j], bm, Unensured), Unensured(ms[j], bm));
  }

  /** The `filter` over candidate filters, each kept one becoming a new filter object. */
  method KeepObjects(cs: seq<FilterVal>, id: nat) returns (r: seq<Filter>)
    ensures forall i :: 0 <= i < |r| ==> fresh(r[i])
    ensures ModelsAre(r, KeepFullfillable(cs, id))
  {
    r := [];
    var i := 0;
    while i < |cs|
      invariant 0 <= i <= |cs|
      invariant forall k :: 0 <= k < |r| ==> fresh(r[k])
      invariant ModelsAre(r, KeepFullfillable(cs[..i], id))
    {
      KeepFullfillableSnoc(cs, i, id);
      if FilterField.IsFullfillable(FieldOf(cs[i], id)) {
        var c := new Filter.Of(cs[i]);
        ModelsAreAppend(r, [c], KeepFullfillable(cs[..i], id), [cs[i]]);
        r := r + [c];
      }
      i := i + 1;
    }
    assert cs[..|cs|] == cs;
  }
}
