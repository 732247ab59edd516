/**
 * Request validation as the request models declare it: every field carries
 * range constraints, and a body that breaks any of them is rejected with one
 * error per offending field, in declaration order, before any formula runs.
 */
module Validation {
  import opened Wrappers
  import opened PyArith

  /** The constraint a field broke, named after the validator's error types. */
  datatype ErrorKind =
    | Missing
    | GreaterThan(limit: real)
    | GreaterThanEqual(limit: real)
    | LessThanEqual(limit: real)

  datatype FieldError<F> = FieldError(loc: F, kind: ErrorKind)

  /** What became of one request: rejected by validation, failed inside the
      handler (a server error), or answered with a response. */
  datatype Outcome<T, F> =
    | Rejected(errors: seq<FieldError<F>>)
    | Crashed(failure: ArithError)
    | Computed(response: T)

  /** The fields named by a list of errors. */
  function Locs<F>(errs: seq<FieldError<F>>): set<F>
  {
    set e | e in errs :: e.loc
  }

  /** A required field declared with `gt=limit` holds a value above limit. */
  predicate Gt(v: Option<real>, limit: real)
  {
    v.Some? && v.value > limit
  }

  /** Checks a required field declared with `gt=limit`. */
  function CheckGt<F>(loc: F, v: Option<real>, limit: real): (errs: seq<FieldError<F>>)
    ensures errs == [] <==> Gt(v, limit)
    ensures errs != [] ==> errs == [FieldError(loc, if v.None? then Missing else GreaterThan(limit))]
  {
    match v
    case None => [FieldError(loc, Missing)]
    case Some(x) => if x > limit then [] else [FieldError(loc, GreaterThan(limit))]
  }

  /** An optional field declared with `ge=lo, le=hi` is either omitted (its
      default is then taken without being checked) or within [lo, hi]. */
  predicate GeLe(v: Option<real>, lo: real, hi: real)
  {
    v.None? || lo <= v.value <= hi
  }

  /** Checks an optional field declared with `ge=lo, le=hi`. */
  function CheckGeLe<F>(loc: F, v: Option<real>, lo: real, hi: real): (errs: seq<FieldError<F>>)
    requires lo <= hi
    ensures errs == [] <==> GeLe(v, lo, hi)
    ensures errs != [] ==> v.Some? && errs == [FieldError(loc, if v.value < lo then GreaterThanEqual(lo) else LessThanEqual(hi))]
  {
    match v
    case None => []
    case Some(x) =>
      if x < lo then [FieldError(loc, GreaterThanEqual(lo))]
      else if hi < x then [FieldError(loc, LessThanEqual(hi))]
      else []
  }

  /** An optional field declared with `gt=lo, le=hi` is either omitted or
      within (lo, hi]. */
  predicate GtLe(v: Option<real>, lo: real, hi: real)
  {
    v.None? || lo < v.value <= hi
  }

  /** Checks an optional field declared with `gt=lo, le=hi`. */
  function CheckGtLe<F>(loc: F, v: Option<real>, lo: real, hi: real): (errs: seq<FieldError<F>>)
    requires lo < hi
    ensures errs == [] <==> GtLe(v, lo, hi)
    ensures errs != [] ==> v.Some? && errs == [FieldError(loc, if v.value <= lo then GreaterThan(lo) else LessThanEqual(hi))]
  {
    match v
    case None => []
    case Some(x) =>
      if x <= lo then [FieldError(loc, GreaterThan(lo))]
      else if hi < x then [FieldError(loc, LessThanEqual(hi))]
      else []
  }

  /** The value of an optional field: the one sent, or the declared default. */
  function ValueOr(v: Option<real>, default: real): real
  {
    match v
    case Some(x) => x
    case None => default
  }
}
