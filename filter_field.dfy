/**
 * One field's constraint inside a filter (src/filter/filterField.ts): the
 * conjunction of a distinct constraint and a range constraint, kept simplified
 * after every `add`.
 */
module FilterField {
  import opened Wrappers
  import Query
  import Range
  import Distinct
  import ArraySet

  datatype FieldVal = FieldVal(distinct: Distinct.DistinctVal, range: Range.RangeVal)

  /** The state of a freshly constructed field constraint. */
  const Empty := FieldVal(Distinct.Empty, Range.Unconstrained)

  /**
   * The comparison handed to `add`: one of the eight known operator keys with
   * its argument, or a key the switch does not know, with its argument as
   * `${value}` renders it.
   */
  datatype Compare = Known(op: Query.Op) | Unknown(key: string, shown: string)

  // ---------------------------------------------------------------------------
  // Queries

  predicate Passes(f: FieldVal, x: real)
  {
    Distinct.Passes(f.distinct, x) && Range.Passes(f.range, x)
  }

  predicate IsFullfillable(f: FieldVal)
  {
    Distinct.IsFullfillable(f.distinct) && Range.IsFullfillable(f.range)
  }

  predicate IsAlwaysFullfilled(f: FieldVal)
  {
    Distinct.IsAlwaysFullfilled(f.distinct) && Range.IsAlwaysFullfilled(f.range)
  }

  // ---------------------------------------------------------------------------
  // add and simplify

  /** The switch of `add`: route one known operator to the distinct or the range part. */
  function Tighten(f: FieldVal, op: Query.Op): FieldVal
  {
    match op
    case In(vs) => f.(distinct := Distinct.WithDistinct(f.distinct, Distinct.IN, vs))
    case Eq(v) => f.(distinct := Distinct.WithDistinct(f.distinct, Distinct.IN, [v]))
    case Nin(vs) => f.(distinct := Distinct.WithDistinct(f.distinct, Distinct.NIN, vs))
    case Ne(v) => f.(distinct := Distinct.WithDistinct(f.distinct, Distinct.NIN, [v]))
    case Lt(v) => f.(range := Range.WithLT(f.range, v))
    case Lte(v) => f.(range := Range.WithLTE(f.range, v))
    case Gt(v) => f.(range := Range.WithGT(f.range, v))
    case Gte(v) => f.(range := Range.WithGTE(f.range, v))
  }

  /** `simplify`: drop held values the range rejects; under IN the range is then reset. */
  function Simplified(f: FieldVal): FieldVal
  {
    var d := Distinct.WithRange(f.distinct, f.range);
    if d.mode == Distinct.IN then FieldVal(d, Range.Unconstrained) else FieldVal(d, f.range)
  }

  /** The normal form `simplify` leaves behind. */
  predicate IsSimplified(f: FieldVal)
  {
    && (forall i :: 0 <= i < |f.distinct.values| ==> Range.Passes(f.range, f.distinct.values[i]))
    && (f.distinct.mode == Distinct.IN ==> f.range == Range.Unconstrained)
  }

  /**
   * `add`: an unfulfillable field is left alone and reports false; otherwise an
   * unknown key throws, a known one is conjoined and the field simplified, and
   * the result reports whether the field is still fulfillable.
   */
  function Added(f: FieldVal, c: Compare): Result<(FieldVal, bool)>
  {
    if !IsFullfillable(f) then Ok((f, false))
    else match c
      case Unknown(_, shown) => Err("Compare type doesn't exist: " + shown)
      case Known(op) =>
        var g := Simplified(Tighten(f, op));
        Ok((g, IsFullfillable(g)))
  }

  // ---------------------------------------------------------------------------
  // Wire forms

  /** The query object: the distinct part's keys followed by the range part's keys. */
  function ToMongo(f: FieldVal): seq<Query.Op>
  {
    Distinct.ToMongo(f.distinct) + Range.ToMongo(f.range)
  }

  /** The JSON form, in which a part that is always fulfilled is omitted. */
  datatype FieldJSON = FieldJSON(distinct: Option<Distinct.DistinctJSON>, range: Option<Range.RangeJSON>)

  function ToJSON(f: FieldVal): FieldJSON
  {
    FieldJSON(
      if !Distinct.IsAlwaysFullfilled(f.distinct) then Some(Distinct.ToJSON(f.distinct)) else None,
      if !Range.IsAlwaysFullfilled(f.range) then Some(Range.ToJSON(f.range)) else None)
  }

  function FromJSON(j: FieldJSON): FieldVal
  {
    FieldVal(
      if j.distinct.Some? then Distinct.FromJSON(j.distinct.value) else Distinct.Empty,
      if j.range.Some? then Range.FromJSON(j.range.value) else Range.Unconstrained)
  }

  // ---------------------------------------------------------------------------
  // Copies and complements

  /** `clone` as written: the distinct part is copied by its faulty `clone` and loses its values. */
  function CopyAsWritten(f: FieldVal): FieldVal
  {
    FieldVal(Distinct.CopyAsWritten(f.distinct), f.range)
  }

  /** `clone` with both parts copied faithfully. */
  function Copy(f: FieldVal): FieldVal
  {
    FieldVal(Distinct.Copy(f.distinct), f.range)
  }

  /**
   * `subtractFromCloneOf`: every copy of `base` the distinct part asks for gets
   * its distinct part replaced, then every copy the range part asks for gets its
   * range part replaced.
   */
  function Subtract(f: FieldVal, base: FieldVal): (cs: seq<FieldVal>)
    ensures |cs| == |Distinct.Subtract(f.distinct, base.distinct)| + |Range.Subtract(f.range, base.range)|
  {
    var ds := Distinct.Subtract(f.distinct, base.distinct);
    var rs := Range.Subtract(f.range, base.range);
    seq(|ds|, i requires 0 <= i < |ds| => base.(distinct := ds[i]))
    + seq(|rs|, i requires 0 <= i < |rs| => base.(range := rs[i]))
  }

  // ---------------------------------------------------------------------------
  // Properties

  lemma EmptyPassesAll(x: real)
    ensures IsAlwaysFullfilled(Empty) && IsFullfillable(Empty) && IsSimplified(Empty) && Passes(Empty, x)
  {
  }

  /** Each operator of `add`'s switch conjoins exactly the comparison the operator means. */
  lemma TightenConjoins(f: FieldVal, op: Query.Op, x: real)
    ensures Passes(Tighten(f, op), x) <==> Passes(f, x) && Query.Holds(op, x)
  {
    match op
    case In(vs) => Distinct.AndDistinctConjoins(f.distinct, Distinct.IN, vs, x);
    case Eq(v) => Distinct.AndDistinctConjoins(f.distinct, Distinct.IN, [v], x);
    case Nin(vs) => Distinct.AndDistinctConjoins(f.distinct, Distinct.NIN, vs, x);
    case Ne(v) => Distinct.AndDistinctConjoins(f.distinct, Distinct.NIN, [v], x);
    case Lt(v) => Range.AndLTConjoins(f.range, v, x);
    case Lte(v) => Range.AndLTEConjoins(f.range, v, x);
    case Gt(v) => Range.AndGTConjoins(f.range, v, x);
    case Gte(v) => Range.AndGTEConjoins(f.range, v, x);
  }

  /** `simplify` changes the representation only: the same values pass. */
  lemma SimplifyPreservesPasses(f: FieldVal, x: real)
    ensures Passes(Simplified(f), x) <==> Passes(f, x)
  {
    Distinct.AndRangeKeepsPassing(f.distinct, f.range);
  }

  /** `simplify` leaves the normal form, and on the normal form it changes nothing. */
  lemma SimplifyNormalizes(f: FieldVal)
    ensures IsSimplified(Simplified(f))
    ensures IsSimplified(f) ==> Simplified(f) == f
    ensures Simplified(Simplified(f)) == Simplified(f)
  {
    var g := Simplified(f);
    Distinct.AndRangeKeepsPassing(f.distinct, f.range);
    assert forall i :: 0 <= i < |g.distinct.values| ==> g.distinct.values[i] in g.distinct.values;
    if IsSimplified(f) {
      Distinct.PassingRangeAllPass(f.distinct.values, f.range);
    }
    assert IsSimplified(g);
    Distinct.PassingRangeAllPass(g.distinct.values, g.range);
  }

  /**
   * `add` on a fulfillable field conjoins the comparison, keeps the normal form
   * and reports the new fulfillability; on an unfulfillable field it changes
   * nothing and reports false; only an unknown key on a fulfillable field throws.
   */
  lemma AddConjoins(f: FieldVal, c: Compare, x: real)
    ensures Added(f, c).Err? <==> IsFullfillable(f) && c.Unknown?
    ensures !IsFullfillable(f) ==> Added(f, c) == Ok((f, false))
    ensures IsFullfillable(f) && c.Known? ==>
      && Added(f, c).Ok?
      && (Passes(Added(f, c).value.0, x) <==> Passes(f, x) && Query.Holds(c.op, x))
      && IsSimplified(Added(f, c).value.0)
      && Added(f, c).value.1 == IsFullfillable(Added(f, c).value.0)
  {
    if IsFullfillable(f) && c.Known? {
      TightenConjoins(f, c.op, x);
      SimplifyPreservesPasses(Tighten(f, c.op), x);
      SimplifyNormalizes(Tighten(f, c.op));
    }
  }

  /** A field some value passes is fulfillable: an unfulfillable field admits nothing. */
  lemma PassesImpliesFullfillable(f: FieldVal, x: real)
    requires Passes(f, x)
    ensures IsFullfillable(f)
  {
    Distinct.FullfillableIffSatisfiable(f.distinct);
    Range.FullfillableIffSatisfiable(f.range);
  }

  /** A simplified IN field is fulfillable exactly when some value passes it. */
  lemma FullfillableExactUnderIN(f: FieldVal)
    requires IsSimplified(f) && f.distinct.mode == Distinct.IN
    ensures IsFullfillable(f) <==> exists x :: Passes(f, x)
  {
    if IsFullfillable(f) {
      assert Range.Passes(f.range, f.distinct.values[0]);
      assert Passes(f, f.distinct.values[0]);
    }
    if exists x :: Passes(f, x) {
      var x :| Passes(f, x);
      PassesImpliesFullfillable(f, x);
    }
  }

  /**
   * `isFullfillable` is coarser than satisfiability under NIN: `$ne 5` with
   * `$gte 5` and `$lte 5` is in normal form and reported fulfillable, yet no
   * value passes it.
   */
  lemma FullfillableCoarseUnderNIN(x: real)
    ensures var f := FieldVal(Distinct.DistinctVal(Distinct.NIN, [5.0]), Range.RangeVal(Some(5.0), Range.LteGte, Some(5.0), Range.LteGte));
      IsSimplified(f) && IsFullfillable(f) && !Passes(f, x)
  {
  }

  lemma AlwaysFullfilledPassesAll(f: FieldVal, x: real)
    requires IsAlwaysFullfilled(f)
    ensures Passes(f, x)
  {
  }

  /** A conjunction of two query objects matches iff both do. */
  lemma {:induction false} MatchesConcat(a: seq<Query.Op>, b: seq<Query.Op>, x: real)
    ensures Query.Matches(a + b, x) <==> Query.Matches(a, x) && Query.Matches(b, x)
  {
    if Query.Matches(a, x) && Query.Matches(b, x) {
      forall i | 0 <= i < |a + b|
        ensures Query.Holds((a + b)[i], x)
      {
        if i < |a| { assert (a + b)[i] == a[i]; } else { assert (a + b)[i] == b[i - |a|]; }
      }
    }
    if Query.Matches(a + b, x) {
      forall i | 0 <= i < |a| ensures Query.Holds(a[i], x) { assert (a + b)[i] == a[i]; }
      forall i | 0 <= i < |b| ensures Query.Holds(b[i], x) { assert (a + b)[|a| + i] == b[i]; }
    }
  }

  predicate IsDistinctKey(op: Query.Op)
  {
    op.Eq? || op.In? || op.Ne? || op.Nin?
  }

  /**
   * The query object matches exactly the values that pass, holds no key twice
   * (the two spread parts use disjoint keys) and is empty iff the field is
   * always fulfilled.
   */
  lemma ToMongoMeansPasses(f: FieldVal, x: real)
    ensures Query.Matches(ToMongo(f), x) <==> Passes(f, x)
    ensures Query.KeysUnique(ToMongo(f))
    ensures IsAlwaysFullfilled(f) <==> ToMongo(f) == []
  {
    var a, b := Distinct.ToMongo(f.distinct), Range.ToMongo(f.range);
    Distinct.ToMongoMeansPasses(f.distinct, x);
    Range.ToMongoMeansPasses(f.range, x);
    MatchesConcat(a, b, x);
    ToMongoKeysUnique(f);
  }

  lemma ToMongoKeysUnique(f: FieldVal)
    ensures Query.KeysUnique(ToMongo(f))
  {
    var a, b := Distinct.ToMongo(f.distinct), Range.ToMongo(f.range);
    Range.ToMongoMeansPasses(f.range, 0.0);
    KeysUniqueConcat(a, b);
  }

  /** At most one distinct operator in front of range operators with distinct keys keeps every key once. */
  lemma KeysUniqueConcat(a: seq<Query.Op>, b: seq<Query.Op>)
    requires |a| <= 1 && (forall i :: 0 <= i < |a| ==> IsDistinctKey(a[i]))
    requires (forall j :: 0 <= j < |b| ==> !IsDistinctKey(b[j])) && Query.KeysUnique(b)
    ensures Query.KeysUnique(a + b)
  {
    forall i, j | 0 <= i < j < |a + b|
      ensures Query.Key((a + b)[i]) != Query.Key((a + b)[j])
    {
      if i < |a| {
        assert (a + b)[i] == a[i] && (a + b)[j] == b[j - |a|];
      } else {
        assert (a + b)[i] == b[i - |a|] && (a + b)[j] == b[j - |a|];
      }
    }
  }

  /**
   * `toJSON` then `fromJSON` restores the field up to the modes of absent range
   * bounds, so the same values pass.
   */
  lemma JSONRoundTrip(f: FieldVal, x: real)
    ensures FromJSON(ToJSON(f)) == FieldVal(f.distinct, Range.Normal(f.range))
    ensures Passes(FromJSON(ToJSON(f)), x) <==> Passes(f, x)
  {
    Range.JSONRoundTrip(f.range);
  }

  /** The faulty copy turns the fulfillable `$eq 1` into a field nothing passes. */
  lemma CopyAsWrittenLosesValues()
    ensures var f := Tighten(Empty, Query.Eq(1.0));
      Passes(f, 1.0) && !IsFullfillable(CopyAsWritten(f))
  {
    assert Tighten(Empty, Query.Eq(1.0)).distinct.values == [1.0] by {
      assert ArraySet.AWithoutB([1.0], []) == [1.0] by { ArraySet.EmptyRight<real>([1.0]); }
    }
  }

  /** The corrected clone holds both parts unchanged. */
  lemma CopyIsFaithful(f: FieldVal)
    ensures Copy(f) == f
  {
  }

  /** Every copy produced by the subtraction is a restriction of `base`. */
  lemma SubtractRestrictsBase(f: FieldVal, base: FieldVal, i: nat, x: real)
    requires i < |Subtract(f, base)|
    requires Passes(Subtract(f, base)[i], x)
    ensures Passes(base, x)
  {
    var ds := Distinct.Subtract(f.distinct, base.distinct);
    if i < |ds| {
      Distinct.SubtractRestrictsBase(f.distinct, base.distinct, i, x);
    } else {
      var rs := Range.Subtract(f.range, base.range);
      Range.SubtractCoversComplement(f.range, base.range, x);
      assert Range.Passes(rs[i - |ds|], x);
    }
  }

  /** For a fulfillable field the copies together cover `base AND NOT f`. */
  lemma SubtractCoversComplement(f: FieldVal, base: FieldVal, x: real)
    requires IsFullfillable(f)
    requires Passes(base, x) && !Passes(f, x)
    ensures exists i :: 0 <= i < |Subtract(f, base)| && Passes(Subtract(f, base)[i], x)
  {
    var ds := Distinct.Subtract(f.distinct, base.distinct);
    var rs := Range.Subtract(f.range, base.range);
    var cs := Subtract(f, base);
    if !Distinct.Passes(f.distinct, x) {
      Distinct.SubtractCoversComplement(f.distinct, base.distinct, x);
      var i :| 0 <= i < |ds| && Distinct.Passes(ds[i], x);
      assert Passes(cs[i], x);
    } else {
      Range.SubtractCoversComplement(f.range, base.range, x);
      var i :| 0 <= i < |rs| && Range.Passes(rs[i], x);
      assert Passes(cs[|ds| + i], x);
    }
  }

  // ---------------------------------------------------------------------------
  // The mutable field object

  class FieldConstraint {
    var distinct: Distinct.DistinctConstraint
    var range: Range.RangeConstraint

    function Model(): FieldVal
      reads this, distinct, range
    {
      FieldVal(distinct.Model(), range.Model())
    }

    ghost function Repr(): set<object>
      reads this
    {
      {this, distinct, range}
    }

    constructor ()
      ensures Model() == Empty
      ensures fresh(distinct) && fresh(range)
    {
      distinct := new Distinct.DistinctConstraint();
      range := new Range.RangeConstraint();
    }

    /** `fromJSON`: a fresh field whose present parts are read from the wire form. */
    constructor FromWire(j: FieldJSON)
      ensures Model() == FromJSON(j)
      ensures fresh(distinct) && fresh(range)
    {
      if j.distinct.Some? {
        distinct := new Distinct.DistinctConstraint.FromWire(j.distinct.value);
      } else {
        distinct := new Distinct.DistinctConstraint();
      }
      if j.range.Some? {
        range := new Range.RangeConstraint.FromWire(j.range.value);
      } else {
        range := new Range.RangeConstraint();
      }
    }

    /** `clone`, with the distinct part copied faithfully. */
    method Clone() returns (c: FieldConstraint)
      ensures fresh(c) && fresh(c.distinct) && fresh(c.range)
      ensures c.Model() == Copy(Model())
    {
      c := new FieldConstraint();
      var d := distinct.Clone();
      var r := range.Clone();
      c.distinct, c.range := d, r;
    }

    method Simplify()
      modifies this, distinct
      ensures Model() == Simplified(old(Model()))
      ensures distinct == old(distinct) && (range == old(range) || fresh(range))
    {
      distinct.AndRange(range);
      if distinct.mode == Distinct.IN {
        range := new Range.RangeConstraint();
      }
    }

    /** The `switch` of `add`: the comparison goes to the part that handles it. */
    method AndOp(op: Query.Op)
      modifies distinct, range
      ensures Model() == Tighten(old(Model()), op)
      ensures distinct == old(distinct) && range == old(range)
    {
      match op {
        case In(vs) => distinct.AndDistinct(Distinct.IN, vs);
        case Eq(v) => distinct.AndDistinct(Distinct.IN, [v]);
        case Nin(vs) => distinct.AndDistinct(Distinct.NIN, vs);
        case Ne(v) => distinct.AndDistinct(Distinct.NIN, [v]);
        case Lt(v) => range.AndLT(v);
        case Lte(v) => range.AndLTE(v);
        case Gt(v) => range.AndGT(v);
        case Gte(v) => range.AndGTE(v);
      }
    }

    method Add(c: Compare) returns (r: Result<bool>)
      modifies this, distinct, range
      ensures Added(old(Model()), c).Ok? ==>
        r == Ok(Added(old(Model()), c).value.1) && Model() == Added(old(Model()), c).value.0
      ensures Added(old(Model()), c).Err? ==> r.Err? && Model() == old(Model())
      ensures distinct == old(distinct) && (range == old(range) || fresh(range))
    {
      if !(Distinct.IsFullfillable(distinct.Model()) && Range.IsFullfillable(range.Model())) {
        return Ok(false);
      }
      match c {
        case Unknown(_, shown) =>
          return Err("Compare type doesn't exist: " + shown);
        case Known(op) =>
          AndOp(op);
          Simplify();
          r := Ok(Distinct.IsFullfillable(distinct.Model()) && Range.IsFullfillable(range.Model()));
      }
    }
  }
}
