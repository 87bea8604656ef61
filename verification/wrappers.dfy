/** Option and Result, the two failure-carrying types the rest of the model uses. */
module Wrappers {

  datatype Option<+T> = None | Some(value: T)

  /** The outcome of an operation that either yields a value or raises an error. */
  datatype Result<+R, +E> = Success(value: R) | Failure(error: E)

  /** `setdefault` on a keyword argument: keep what the caller gave, otherwise use `v`. */
  function SetDefault<T>(given: Option<T>, v: T): (r: Option<T>)
    ensures r.Some?
    ensures given.Some? ==> r == given
    ensures given.None? ==> r.value == v
  {
    match given
    case Some(_) => given
    case None => Some(v)
  }

  /** The value a keyword argument takes: the caller's, else the field's default. */
  function GetOr<T>(given: Option<T>, default: T): (r: T)
    ensures given.Some? ==> r == given.value
    ensures given.None? ==> r == default
  {
    match given
    case Some(v) => v
    case None => default
  }
}
