/**
 * The distinct constraint of a filter field (src/filter/contraints/distinct.ts):
 * membership (`IN`) or non-membership (`NIN`) in a list of values that is used
 * with set semantics.
 */
module Distinct {
  import opened Wrappers
  import ArraySet
  import Range
  import Query

  datatype DMode = IN | NIN

  datatype DistinctVal = DistinctVal(mode: DMode, values: seq<real>)

  /** The state of a freshly constructed constraint: NIN of nothing. */
  const Empty := DistinctVal(NIN, [])

  function Flip(m: DMode): DMode
  {
    if m == IN then NIN else IN
  }

  // ---------------------------------------------------------------------------
  // Queries

  predicate Passes(d: DistinctVal, x: real)
  {
    if d.mode == IN then x in d.values else x !in d.values
  }

  predicate IsFullfillable(d: DistinctVal)
  {
    d.mode == NIN || |d.values| != 0
  }

  predicate IsAlwaysFullfilled(d: DistinctVal)
  {
    d.mode == NIN && |d.values| == 0
  }

  // ---------------------------------------------------------------------------
  // Conjunction (andDistinct, andRange)

  /** `andDistinct`: the four-row table, NIN treated as the complement of its list. */
  function WithDistinct(d: DistinctVal, m: DMode, vs: seq<real>): DistinctVal
  {
    match (d.mode, m)
    case (NIN, NIN) => DistinctVal(NIN, ArraySet.Union(d.values, vs))
    case (NIN, IN) => DistinctVal(IN, ArraySet.AWithoutB(vs, d.values))
    case (IN, NIN) => DistinctVal(IN, ArraySet.AWithoutB(d.values, vs))
    case (IN, IN) => DistinctVal(IN, ArraySet.Intersection(d.values, vs))
  }

  /** The values of `vs`, in order, that pass `r`. */
  function PassingRange(vs: seq<real>, r: Range.RangeVal): (res: seq<real>)
    ensures forall x :: x in res <==> x in vs && Range.Passes(r, x)
    ensures |res| <= |vs|
  {
    if vs == [] then []
    else if Range.Passes(r, vs[0]) then [vs[0]] + PassingRange(vs[1..], r)
    else PassingRange(vs[1..], r)
  }

  /** `andRange`: keep only the held values that pass the range; the mode stays. */
  function WithRange(d: DistinctVal, r: Range.RangeVal): DistinctVal
  {
    DistinctVal(d.mode, PassingRange(d.values, r))
  }

  // ---------------------------------------------------------------------------
  // Wire forms

  datatype DistinctJSON = DistinctJSON(mode: DMode, filterValues: seq<real>)

  function ToJSON(d: DistinctVal): DistinctJSON
  {
    DistinctJSON(d.mode, d.values)
  }

  function FromJSON(j: DistinctJSON): DistinctVal
  {
    DistinctVal(j.mode, j.filterValues)
  }

  function ToMongo(d: DistinctVal): seq<Query.Op>
  {
    if IsAlwaysFullfilled(d) then []
    else if d.mode == IN then
      (if |d.values| == 1 then [Query.Eq(d.values[0])] else [Query.In(d.values)])
    else
      (if |d.values| == 1 then [Query.Ne(d.values[0])] else [Query.Nin(d.values)])
  }

  // ---------------------------------------------------------------------------
  // Copies and complements

  /** `clone` as written: the copy slices its OWN fresh (empty) list, so it keeps the mode and loses the values. */
  function CopyAsWritten(d: DistinctVal): DistinctVal
  {
    DistinctVal(d.mode, Empty.values)
  }

  /** `clone` as evidently intended: the copy holds the same mode and values. */
  function Copy(d: DistinctVal): DistinctVal
  {
    DistinctVal(d.mode, d.values)
  }

  /**
   * `subtractFromCloneOf`: nothing when always fulfilled, otherwise one copy of
   * `base` per held value, each anded with the flipped-mode singleton.
   */
  function Subtract(d: DistinctVal, base: DistinctVal): (cs: seq<DistinctVal>)
    ensures |cs| == if IsAlwaysFullfilled(d) then 0 else |d.values|
  {
    if IsAlwaysFullfilled(d) then []
    else seq(|d.values|, i requires 0 <= i < |d.values| => WithDistinct(base, Flip(d.mode), [d.values[i]]))
  }

  // ---------------------------------------------------------------------------
  // Properties

  lemma EmptyPassesAll(x: real)
    ensures IsAlwaysFullfilled(Empty) && IsFullfillable(Empty) && Passes(Empty, x)
  {
  }

  /** `andDistinct` is conjunction: afterwards a value passes iff it passed before and passes the new constraint. */
  lemma AndDistinctConjoins(d: DistinctVal, m: DMode, vs: seq<real>, x: real)
    ensures Passes(WithDistinct(d, m, vs), x) <==> Passes(d, x) && Passes(DistinctVal(m, vs), x)
    ensures WithDistinct(d, m, vs).mode == (if d.mode == NIN && m == NIN then NIN else IN)
  {
  }

  /** The exhaustive small case NIN{1,2} AND IN{2,3} = IN{3}. */
  lemma AndDistinctExample()
    ensures WithDistinct(DistinctVal(NIN, [1.0, 2.0]), IN, [2.0, 3.0]) == DistinctVal(IN, [3.0])
  {
    assert WithDistinct(DistinctVal(NIN, [1.0, 2.0]), IN, [2.0, 3.0]).values == [3.0] by {
      assert 2.0 in [1.0, 2.0] && 3.0 !in [1.0, 2.0];
      assert ArraySet.AWithoutB([3.0], [1.0, 2.0]) == [3.0];
      assert [2.0, 3.0][1..] == [3.0];
    }
  }

  /** A real strictly above every element of `vs`, hence not among them. */
  function Above(vs: seq<real>): (a: real)
    ensures forall i :: 0 <= i < |vs| ==> vs[i] < a
    ensures a !in vs
  {
    if vs == [] then 0.0
    else
      var rest := Above(vs[1..]);
      var a := if vs[0] + 1.0 > rest then vs[0] + 1.0 else rest;
      assert forall i :: 1 <= i < |vs| ==> vs[i] == vs[1..][i - 1];
      a
  }

  /** A distinct constraint is fulfillable exactly when some value passes it. */
  lemma FullfillableIffSatisfiable(d: DistinctVal)
    ensures IsFullfillable(d) <==> exists x :: Passes(d, x)
  {
    if d.mode == NIN {
      assert Passes(d, Above(d.values));
    } else if |d.values| != 0 {
      assert Passes(d, d.values[0]);
    }
  }

  /** A distinct constraint is always fulfilled exactly when it passes every value. */
  lemma AlwaysFullfilledIffPassesAll(d: DistinctVal)
    ensures IsAlwaysFullfilled(d) <==> forall x :: Passes(d, x)
  {
    if d.mode == IN {
      assert !Passes(d, Above(d.values));
    } else if |d.values| != 0 {
      assert !Passes(d, d.values[0]);
    }
  }

  /** `andRange` keeps exactly the held values that pass the range, leaving the mode. */
  lemma AndRangeKeepsPassing(d: DistinctVal, r: Range.RangeVal)
    ensures WithRange(d, r).mode == d.mode
    ensures forall x :: x in WithRange(d, r).values <==> x in d.values && Range.Passes(r, x)
    ensures ArraySet.IsSubsequence(WithRange(d, r).values, d.values)
  {
    PassingRangeIsSubsequence(d.values, r);
  }

  lemma {:induction false} PassingRangeIsSubsequence(vs: seq<real>, r: Range.RangeVal)
    ensures ArraySet.IsSubsequence(PassingRange(vs, r), vs)
  {
    if vs != [] {
      PassingRangeIsSubsequence(vs[1..], r);
    }
  }

  /** Filtering a list whose values all pass leaves it unchanged. */
  lemma {:induction false} PassingRangeAllPass(vs: seq<real>, r: Range.RangeVal)
    requires forall i :: 0 <= i < |vs| ==> Range.Passes(r, vs[i])
    ensures PassingRange(vs, r) == vs
  {
    if vs != [] {
      assert Range.Passes(r, vs[0]);
      PassingRangeAllPass(vs[1..], r);
      assert vs == [vs[0]] + vs[1..];
    }
  }

  /** The query form matches exactly the values that pass. */
  lemma ToMongoMeansPasses(d: DistinctVal, x: real)
    ensures Query.Matches(ToMongo(d), x) <==> Passes(d, x)
    ensures IsAlwaysFullfilled(d) <==> ToMongo(d) == []
    ensures |ToMongo(d)| <= 1
  {
    var obj := ToMongo(d);
    if !IsAlwaysFullfilled(d) {
      assert Query.Matches(obj, x) <==> Query.Holds(obj[0], x);
      if |d.values| == 1 {
        assert x in d.values <==> x == d.values[0];
      }
    }
  }

  lemma JSONRoundTrip(d: DistinctVal, j: DistinctJSON)
    ensures FromJSON(ToJSON(d)) == d
    ensures ToJSON(FromJSON(j)) == j
  {
  }

  /** The copy made by `clone` as written has lost the values: IN{1} becomes the unfulfillable IN{}. */
  lemma CloneAsWrittenLosesValues()
    ensures CopyAsWritten(DistinctVal(IN, [1.0])) == DistinctVal(IN, [])
    ensures Passes(DistinctVal(IN, [1.0]), 1.0) && !Passes(CopyAsWritten(DistinctVal(IN, [1.0])), 1.0)
    ensures !IsFullfillable(CopyAsWritten(DistinctVal(IN, [1.0])))
  {
  }

  /** Every copy produced by the subtraction is a restriction of `base`. */
  lemma SubtractRestrictsBase(d: DistinctVal, base: DistinctVal, i: nat, x: real)
    requires i < |Subtract(d, base)|
    ensures Passes(Subtract(d, base)[i], x) ==> Passes(base, x)
    ensures Passes(Subtract(d, base)[i], x) <==> Passes(base, x) && Passes(DistinctVal(Flip(d.mode), [d.values[i]]), x)
  {
    AndDistinctConjoins(base, Flip(d.mode), [d.values[i]], x);
  }

  /**
   * The copies cover `base AND NOT d` whenever `d` is fulfillable (for an IN
   * list the cover is coarser than the complement; for NIN it is exact).
   */
  lemma SubtractCoversComplement(d: DistinctVal, base: DistinctVal, x: real)
    requires IsFullfillable(d)
    requires Passes(base, x) && !Passes(d, x)
    ensures exists i :: 0 <= i < |Subtract(d, base)| && Passes(Subtract(d, base)[i], x)
  {
    var cs := Subtract(d, base);
    if d.mode == IN {
      assert |d.values| != 0 && x != d.values[0];
      SubtractRestrictsBase(d, base, 0, x);
      assert Passes(cs[0], x);
    } else {
      var i :| 0 <= i < |d.values| && d.values[i] == x;
      SubtractRestrictsBase(d, base, i, x);
      assert Passes(cs[i], x);
    }
  }

  /** For a NIN list the copies are exactly `base AND NOT d`. */
  lemma SubtractExactForNIN(d: DistinctVal, base: DistinctVal, x: real)
    requires d.mode == NIN
    ensures (exists i :: 0 <= i < |Subtract(d, base)| && Passes(Subtract(d, base)[i], x))
            <==> Passes(base, x) && !Passes(d, x)
  {
    if exists i :: 0 <= i < |Subtract(d, base)| && Passes(Subtract(d, base)[i], x) {
      var i :| 0 <= i < |Subtract(d, base)| && Passes(Subtract(d, base)[i], x);
      SubtractRestrictsBase(d, base, i, x);
    } else if Passes(base, x) && !Passes(d, x) {
      SubtractCoversComplement(d, base, x);
    }
  }

  /** For IN{1,2} the copies NIN{1} and NIN{2} together admit 2, which IN{1,2} itself admits. */
  lemma SubtractCoarseForIN()
    ensures Subtract(DistinctVal(IN, [1.0, 2.0]), Empty)[0] == DistinctVal(NIN, [1.0])
    ensures Passes(Subtract(DistinctVal(IN, [1.0, 2.0]), Empty)[0], 2.0)
    ensures Passes(DistinctVal(IN, [1.0, 2.0]), 2.0)
  {
    assert ArraySet.Union([], [1.0]) == [1.0] by { ArraySet.EmptyRight<real>([]); }
  }

  // ---------------------------------------------------------------------------
  // The mutable constraint object

  class DistinctConstraint {
    var mode: DMode
    var values: seq<real>

    function Model(): DistinctVal
      reads this
    {
      DistinctVal(mode, values)
    }

    constructor ()
      ensures Model() == Empty
    {
      mode, values := NIN, [];
    }

    /** `fromJSON`: a fresh constraint holding the wire form's mode and list. */
    constructor FromWire(j: DistinctJSON)
      ensures Model() == FromJSON(j)
    {
      mode, values := j.mode, j.filterValues;
    }

    method CloneAsWritten() returns (c: DistinctConstraint)
      ensures fresh(c) && c.Model() == CopyAsWritten(Model())
    {
      c := new DistinctConstraint();
      c.mode := mode;
      c.values := c.values[..];
    }

    method Clone() returns (c: DistinctConstraint)
      ensures fresh(c) && c.Model() == Copy(Model())
    {
      c := new DistinctConstraint();
      c.mode := mode;
      c.values := values[..];
    }

    method AndDistinct(m: DMode, vs: seq<real>)
      modifies this
      ensures Model() == WithDistinct(old(Model()), m, vs)
    {
      if mode == NIN && m == NIN {
        values := ArraySet.Union(values, vs);
      } else if mode == NIN && m == IN {
        values := ArraySet.AWithoutB(vs, values);
        mode := IN;
      } else if mode == IN && m == NIN {
        values := ArraySet.AWithoutB(values, vs);
      } else {
        values := ArraySet.Intersection(values, vs);
      }
    }

    method AndRange(r: Range.RangeConstraint)
      modifies this
      ensures Model() == WithRange(old(Model()), r.Model())
    {
      values := PassingRange(values, r.Model());
    }
  }
}
