/**
 * The Mongo-style comparison objects that filters are rendered into
 * (`$eq`, `$in`, `$ne`, `$nin`, `$lt`, `$lte`, `$gt`, `$gte`), with the meaning
 * a query engine gives them. The filter code only produces these objects; the
 * meaning is the reference the rendering is checked against.
 */
module Query {

  datatype Op =
    | Eq(v: real)
    | In(vs: seq<real>)
    | Ne(v: real)
    | Nin(vs: seq<real>)
    | Lt(v: real)
    | Lte(v: real)
    | Gt(v: real)
    | Gte(v: real)

  /** The operator key the object uses for `op`. */
  function Key(op: Op): string
  {
    match op
    case Eq(_) => "$eq"
    case In(_) => "$in"
    case Ne(_) => "$ne"
    case Nin(_) => "$nin"
    case Lt(_) => "$lt"
    case Lte(_) => "$lte"
    case Gt(_) => "$gt"
    case Gte(_) => "$gte"
  }

  /** Whether value `x` satisfies one comparison. */
  predicate Holds(op: Op, x: real)
  {
    match op
    case Eq(v) => x == v
    case In(vs) => x in vs
    case Ne(v) => x != v
    case Nin(vs) => x !in vs
    case Lt(v) => x < v
    case Lte(v) => x <= v
    case Gt(v) => x > v
    case Gte(v) => x >= v
  }

  /** A comparison object is a conjunction of its operators; `{}` matches everything. */
  predicate Matches(obj: seq<Op>, x: real)
  {
    forall i :: 0 <= i < |obj| ==> Holds(obj[i], x)
  }

  /** No operator key occurs twice in the object. */
  predicate KeysUnique(obj: seq<Op>)
  {
    forall i, j :: 0 <= i < j < |obj| ==> Key(obj[i]) != Key(obj[j])
  }
}
