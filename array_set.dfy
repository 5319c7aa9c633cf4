/**
 * Set operations on arrays used by the distinct constraint and the patch merge
 * (src/_util/arraySet.ts). Membership is `===`, which is value equality for the
 * values modelled here.
 */
module ArraySet {

  /** The elements of `a` (in order, with repetitions) that do not occur in `b`. */
  function AWithoutB<T(==,!new)>(a: seq<T>, b: seq<T>): (r: seq<T>)
    ensures forall x :: x in r <==> x in a && x !in b
    ensures |r| <= |a|
  {
    if a == [] then []
    else if a[0] in b then AWithoutB(a[1..], b)
    else [a[0]] + AWithoutB(a[1..], b)
  }

  /** `a` followed by the elements of `b` that do not occur in `a`, in `b`'s order. */
  function Union<T(==,!new)>(a: seq<T>, b: seq<T>): (r: seq<T>)
    ensures forall x :: x in r <==> x in a || x in b
    ensures |a| <= |r| && r[..|a|] == a
  {
    a + AWithoutB(b, a)
  }

  /** The elements of `a` (in order, with repetitions) that occur in `b`. */
  function Intersection<T(==,!new)>(a: seq<T>, b: seq<T>): (r: seq<T>)
    ensures forall x :: x in r <==> x in a && x in b
    ensures |r| <= |a|
  {
    if a == [] then []
    else if a[0] in b then [a[0]] + Intersection(a[1..], b)
    else Intersection(a[1..], b)
  }

  /** `sub` is obtained from `s` by deleting elements. */
  ghost predicate IsSubsequence<T>(sub: seq<T>, s: seq<T>)
    decreases |s|
  {
    if sub == [] then true
    else if s == [] then false
    else if sub[0] == s[0] then IsSubsequence(sub[1..], s[1..])
    else IsSubsequence(sub, s[1..])
  }

  lemma {:induction false} AWithoutBIsSubsequence<T(!new)>(a: seq<T>, b: seq<T>)
    ensures IsSubsequence(AWithoutB(a, b), a)
  {
    if a != [] {
      AWithoutBIsSubsequence(a[1..], b);
    }
  }

  lemma {:induction false} IntersectionIsSubsequence<T(!new)>(a: seq<T>, b: seq<T>)
    ensures IsSubsequence(Intersection(a, b), a)
  {
    if a != [] {
      IntersectionIsSubsequence(a[1..], b);
    }
  }

  /** Every element of `a` lands in exactly one of the two results. */
  lemma {:induction false} IntersectionAndDifferencePartition<T(!new)>(a: seq<T>, b: seq<T>)
    ensures |Intersection(a, b)| + |AWithoutB(a, b)| == |a|
    ensures multiset(Intersection(a, b)) + multiset(AWithoutB(a, b)) == multiset(a)
  {
    if a != [] {
      IntersectionAndDifferencePartition(a[1..], b);
      assert a == [a[0]] + a[1..];
    }
  }

  lemma {:induction false} EmptyRight<T(!new)>(a: seq<T>)
    ensures Union(a, []) == a
    ensures AWithoutB(a, []) == a
    ensures Intersection(a, []) == []
  {
    if a != [] {
      EmptyRight(a[1..]);
    }
  }
}
