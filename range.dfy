/**
 * The range constraint of a filter field (src/filter/contraints/range.ts): an
 * optional upper bound `lt` and an optional lower bound `gt`, each with a mode.
 * Mode `LtGt` is the strict bound (`$lt`/`$gt`), `LteGte` the inclusive one
 * (`$lte`/`$gte`); a mode is kept even while its bound is absent.
 *
 * The state is the datatype `RangeVal`; the class `RangeConstraint` holds it in
 * mutable fields as the source does, and its methods are proved against the
 * functions on `RangeVal`.
 */
module Range {
  import opened Wrappers
  import Query

  datatype Mode = LtGt | LteGte

  datatype RangeVal = RangeVal(lt: Option<real>, ltMode: Mode, gt: Option<real>, gtMode: Mode)

  /** The state of a freshly constructed constraint. */
  const Unconstrained := RangeVal(None, LteGte, None, LteGte)

  // ---------------------------------------------------------------------------
  // Queries

  /**
   * `passes` exactly as range.ts writes it: under `LtGt` it rejects only values
   * above the bound and under `LteGte` it also rejects the bound itself, which is
   * the opposite of what `ToMongo` and `IsFullfillable` mean by the two modes.
   */
  predicate PassesAsWritten(r: RangeVal, x: real)
  {
    && (r.lt.Some? ==> (if r.ltMode == LtGt then !(x > r.lt.value) else !(x >= r.lt.value)))
    && (r.gt.Some? ==> (if r.gtMode == LtGt then !(x < r.gt.value) else !(x <= r.gt.value)))
  }

  /** `passes` with the modes read as `ToMongo` and `IsFullfillable` read them. */
  predicate Passes(r: RangeVal, x: real)
  {
    && (r.lt.Some? ==> (if r.ltMode == LtGt then x < r.lt.value else x <= r.lt.value))
    && (r.gt.Some? ==> (if r.gtMode == LtGt then x > r.gt.value else x >= r.gt.value))
  }

  predicate IsFullfillable(r: RangeVal)
  {
    r.lt.Some? && r.gt.Some? ==>
      if r.ltMode == LteGte && r.gtMode == LteGte then r.lt.value >= r.gt.value
      else r.lt.value > r.gt.value
  }

  predicate IsAlwaysFullfilled(r: RangeVal)
  {
    r.lt.None? && r.gt.None?
  }

  // ---------------------------------------------------------------------------
  // Tightening (andLT, andLTE, andGT, andGTE)

  function WithLT(r: RangeVal, v: real): RangeVal
  {
    if r.lt.None? || v <= r.lt.value then r.(lt := Some(v), ltMode := LtGt) else r
  }

  function WithLTE(r: RangeVal, v: real): RangeVal
  {
    if r.lt.None? || v < r.lt.value then r.(lt := Some(v), ltMode := LteGte) else r
  }

  function WithGT(r: RangeVal, v: real): RangeVal
  {
    if r.gt.None? || v >= r.gt.value then r.(gt := Some(v), gtMode := LtGt) else r
  }

  function WithGTE(r: RangeVal, v: real): RangeVal
  {
    if r.gt.None? || v > r.gt.value then r.(gt := Some(v), gtMode := LteGte) else r
  }

  // ---------------------------------------------------------------------------
  // Wire forms

  datatype BoundJSON = BoundJSON(val: real, eq: bool)
  datatype RangeJSON = RangeJSON(lt: Option<BoundJSON>, gt: Option<BoundJSON>)

  function ModeOf(eq: bool): Mode
  {
    if eq then LteGte else LtGt
  }

  function ToJSON(r: RangeVal): RangeJSON
  {
    RangeJSON(
      if r.lt.Some? then Some(BoundJSON(r.lt.value, r.ltMode == LteGte)) else None,
      if r.gt.Some? then Some(BoundJSON(r.gt.value, r.gtMode == LteGte)) else None)
  }

  function FromJSON(j: RangeJSON): RangeVal
  {
    var withLt := if j.lt.Some? then Unconstrained.(lt := Some(j.lt.value.val), ltMode := ModeOf(j.lt.value.eq))
                  else Unconstrained;
    if j.gt.Some? then withLt.(gt := Some(j.gt.value.val), gtMode := ModeOf(j.gt.value.eq)) else withLt
  }

  /** The range with the mode of every absent bound reset to the default. */
  function Normal(r: RangeVal): RangeVal
  {
    RangeVal(r.lt, if r.lt.Some? then r.ltMode else LteGte, r.gt, if r.gt.Some? then r.gtMode else LteGte)
  }

  function ToMongo(r: RangeVal): (obj: seq<Query.Op>)
  {
    if IsAlwaysFullfilled(r) then []
    else
      (if r.lt.Some? then [if r.ltMode == LtGt then Query.Lt(r.lt.value) else Query.Lte(r.lt.value)] else [])
      + (if r.gt.Some? then [if r.gtMode == LtGt then Query.Gt(r.gt.value) else Query.Gte(r.gt.value)] else [])
  }

  // ---------------------------------------------------------------------------
  // Complement (subtractFromCloneOf)

  /**
   * `subtractFromCloneOf` as written: one clone of `base` per present bound; the
   * clone for the lower bound picks its operator by the UPPER bound's mode.
   */
  function SubtractAsWritten(r: RangeVal, base: RangeVal): seq<RangeVal>
  {
    (if r.lt.Some? then [if r.ltMode == LtGt then WithGTE(base, r.lt.value) else WithGT(base, r.lt.value)] else [])
    + (if r.gt.Some? then [if r.ltMode == LtGt then WithLTE(base, r.gt.value) else WithLT(base, r.gt.value)] else [])
  }

  /** `subtractFromCloneOf` with the lower bound's complement chosen by the lower bound's own mode. */
  function Subtract(r: RangeVal, base: RangeVal): seq<RangeVal>
  {
    (if r.lt.Some? then [if r.ltMode == LtGt then WithGTE(base, r.lt.value) else WithGT(base, r.lt.value)] else [])
    + (if r.gt.Some? then [if r.gtMode == LtGt then WithLTE(base, r.gt.value) else WithLT(base, r.gt.value)] else [])
  }

  // ---------------------------------------------------------------------------
  // Properties

  lemma UnconstrainedPassesAll(x: real)
    ensures IsAlwaysFullfilled(Unconstrained) && IsFullfillable(Unconstrained)
    ensures Passes(Unconstrained, x) && PassesAsWritten(Unconstrained, x)
  {
  }

  /** `andLT(v)` conjoins `x < v`, and the upper bound never increases. */
  lemma AndLTConjoins(r: RangeVal, v: real, x: real)
    ensures Passes(WithLT(r, v), x) <==> Passes(r, x) && x < v
    ensures WithLT(r, v).lt.Some? && (r.lt.Some? ==> WithLT(r, v).lt.value <= r.lt.value)
    ensures WithLT(r, v).gt == r.gt && WithLT(r, v).gtMode == r.gtMode
  {
  }

  /** `andLTE(v)` conjoins `x <= v`, and the upper bound never increases. */
  lemma AndLTEConjoins(r: RangeVal, v: real, x: real)
    ensures Passes(WithLTE(r, v), x) <==> Passes(r, x) && x <= v
    ensures WithLTE(r, v).lt.Some? && (r.lt.Some? ==> WithLTE(r, v).lt.value <= r.lt.value)
    ensures WithLTE(r, v).gt == r.gt && WithLTE(r, v).gtMode == r.gtMode
  {
  }

  /** `andGT(v)` conjoins `x > v`, and the lower bound never decreases. */
  lemma AndGTConjoins(r: RangeVal, v: real, x: real)
    ensures Passes(WithGT(r, v), x) <==> Passes(r, x) && x > v
    ensures WithGT(r, v).gt.Some? && (r.gt.Some? ==> WithGT(r, v).gt.value >= r.gt.value)
    ensures WithGT(r, v).lt == r.lt && WithGT(r, v).ltMode == r.ltMode
  {
  }

  /** `andGTE(v)` conjoins `x >= v`, and the lower bound never decreases. */
  lemma AndGTEConjoins(r: RangeVal, v: real, x: real)
    ensures Passes(WithGTE(r, v), x) <==> Passes(r, x) && x >= v
    ensures WithGTE(r, v).gt.Some? && (r.gt.Some? ==> WithGTE(r, v).gt.value >= r.gt.value)
    ensures WithGTE(r, v).lt == r.lt && WithGTE(r, v).ltMode == r.ltMode
  {
  }

  /** Under the corrected `passes`, a range is fulfillable exactly when some value passes it. */
  lemma FullfillableIffSatisfiable(r: RangeVal)
    ensures IsFullfillable(r) <==> exists x :: Passes(r, x)
  {
    if IsFullfillable(r) {
      var w: real;
      if r.lt.Some? && r.gt.Some? {
        w := (r.lt.value + r.gt.value) / 2.0;
        if r.lt.value == r.gt.value { w := r.lt.value; }
      } else if r.lt.Some? {
        w := r.lt.value - 1.0;
      } else if r.gt.Some? {
        w := r.gt.value + 1.0;
      } else {
        w := 0.0;
      }
      assert Passes(r, w);
    }
  }

  /** An always-fulfilled range passes every value. */
  lemma AlwaysFullfilledPassesAll(r: RangeVal, x: real)
    requires IsAlwaysFullfilled(r)
    ensures Passes(r, x) && IsFullfillable(r)
  {
  }

  /** The range with both bounds at 5 and inclusive modes: fulfillable, yet `passes` as written rejects every value. */
  lemma PassesAsWrittenContradictsFullfillable(x: real)
    ensures IsFullfillable(RangeVal(Some(5.0), LteGte, Some(5.0), LteGte))
    ensures !PassesAsWritten(RangeVal(Some(5.0), LteGte, Some(5.0), LteGte), x)
    ensures Passes(RangeVal(Some(5.0), LteGte, Some(5.0), LteGte), 5.0)
  {
  }

  /** After `andLT(5)` the query form says `$lt: 5`, yet `passes` as written accepts 5. */
  lemma PassesAsWrittenDisagreesWithMongo()
    ensures ToMongo(WithLT(Unconstrained, 5.0)) == [Query.Lt(5.0)]
    ensures PassesAsWritten(WithLT(Unconstrained, 5.0), 5.0)
    ensures !Query.Matches(ToMongo(WithLT(Unconstrained, 5.0)), 5.0)
  {
    assert !Query.Holds(ToMongo(WithLT(Unconstrained, 5.0))[0], 5.0);
  }

  /** The query form matches exactly the values the corrected `passes` accepts. */
  lemma ToMongoMeansPasses(r: RangeVal, x: real)
    ensures Query.Matches(ToMongo(r), x) <==> Passes(r, x)
    ensures |ToMongo(r)| <= 2 && Query.KeysUnique(ToMongo(r))
    ensures IsAlwaysFullfilled(r) <==> ToMongo(r) == []
  {
    var obj := ToMongo(r);
    if !IsAlwaysFullfilled(r) {
      if r.lt.Some? {
        assert Query.Holds(obj[0], x) <==> (if r.ltMode == LtGt then x < r.lt.value else x <= r.lt.value);
      }
      if r.gt.Some? {
        assert Query.Holds(obj[|obj| - 1], x) <==> (if r.gtMode == LtGt then x > r.gt.value else x >= r.gt.value);
      }
    }
  }

  /** `toJSON` then `fromJSON` restores both bounds and the modes of the present ones. */
  lemma JSONRoundTrip(r: RangeVal)
    ensures FromJSON(ToJSON(r)) == Normal(r)
    ensures forall x :: Passes(FromJSON(ToJSON(r)), x) <==> Passes(r, x)
  {
  }

  /** `fromJSON` then `toJSON` gives back the wire form unchanged. */
  lemma JSONRoundTripWire(j: RangeJSON)
    ensures ToJSON(FromJSON(j)) == j
  {
  }

  /**
   * The clones built by the corrected subtraction cover exactly the values that
   * pass `base` but not `r`: their disjunction is `base AND NOT r`.
   */
  lemma SubtractCoversComplement(r: RangeVal, base: RangeVal, x: real)
    ensures |Subtract(r, base)| == (if r.lt.Some? then 1 else 0) + (if r.gt.Some? then 1 else 0)
    ensures (exists i :: 0 <= i < |Subtract(r, base)| && Passes(Subtract(r, base)[i], x))
            <==> Passes(base, x) && !Passes(r, x)
  {
    var s := Subtract(r, base);
    if r.lt.Some? {
      if r.ltMode == LtGt { AndGTEConjoins(base, r.lt.value, x); } else { AndGTConjoins(base, r.lt.value, x); }
      assert Passes(s[0], x) <==> Passes(base, x) && !(if r.ltMode == LtGt then x < r.lt.value else x <= r.lt.value);
    }
    if r.gt.Some? {
      if r.gtMode == LtGt { AndLTEConjoins(base, r.gt.value, x); } else { AndLTConjoins(base, r.gt.value, x); }
      assert Passes(s[|s| - 1], x) <==> Passes(base, x) && !(if r.gtMode == LtGt then x > r.gt.value else x >= r.gt.value);
    }
  }

  /**
   * The subtraction as written misses the bound itself for a strict lower bound
   * when the (absent) upper bound keeps its default inclusive mode: NOT(x > 5)
   * holds at 5, but the only clone produced is `x < 5`.
   */
  lemma SubtractAsWrittenMissesBoundary()
    ensures SubtractAsWritten(WithGT(Unconstrained, 5.0), Unconstrained) == [WithLT(Unconstrained, 5.0)]
    ensures !Passes(WithGT(Unconstrained, 5.0), 5.0) && !Passes(WithLT(Unconstrained, 5.0), 5.0)
    ensures Subtract(WithGT(Unconstrained, 5.0), Unconstrained) == [WithLTE(Unconstrained, 5.0)]
  {
  }

  // ---------------------------------------------------------------------------
  // The mutable constraint object

  class RangeConstraint {
    var lt: Option<real>
    var ltMode: Mode
    var gt: Option<real>
    var gtMode: Mode

    function Model(): RangeVal
      reads this
    {
      RangeVal(lt, ltMode, gt, gtMode)
    }

    constructor ()
      ensures Model() == Unconstrained
    {
      lt, ltMode, gt, gtMode := None, LteGte, None, LteGte;
    }

    /** `fromJSON`: a fresh constraint holding the bounds the wire form names. */
    constructor FromWire(j: RangeJSON)
      ensures Model() == FromJSON(j)
    {
      lt, ltMode, gt, gtMode := None, LteGte, None, LteGte;
      if j.lt.Some? {
        lt := Some(j.lt.value.val);
        ltMode := if j.lt.value.eq then LteGte else LtGt;
      }
      if j.gt.Some? {
        gt := Some(j.gt.value.val);
        gtMode := if j.gt.value.eq then LteGte else LtGt;
      }
    }

    method Clone() returns (c: RangeConstraint)
      ensures fresh(c) && c.Model() == Model()
    {
      c := new RangeConstraint();
      c.lt, c.ltMode, c.gt, c.gtMode := lt, ltMode, gt, gtMode;
    }

    method AndLT(v: real)
      modifies this
      ensures Model() == WithLT(old(Model()), v)
    {
      if lt.None? || v <= lt.value {
        lt, ltMode := Some(v), LtGt;
      }
    }

    method AndLTE(v: real)
      modifies this
      ensures Model() == WithLTE(old(Model()), v)
    {
      if lt.None? || v < lt.value {
        lt, ltMode := Some(v), LteGte;
      }
    }

    method AndGT(v: real)
      modifies this
      ensures Model() == WithGT(old(Model()), v)
    {
      if gt.None? || v >= gt.value {
        gt, gtMode := Some(v), LtGt;
      }
    }

    method AndGTE(v: real)
      modifies this
      ensures Model() == WithGTE(old(Model()), v)
    {
      if gt.None? || v > gt.value {
        gt, gtMode := Some(v), LteGte;
      }
    }
  }
}
