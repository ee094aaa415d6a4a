/** Failure-carrying datatypes shared by the modules of the model. */
module Wrappers {

  datatype Option<+T> = None | Some(value: T)

  /** A Go `(value, error)` pair: exactly one of the two is meaningful. */
  datatype Result<+T> = Ok(value: T) | Err(error: string)

  /** A Go function that can also stop the whole process with a runtime panic
      (a failed type assertion, an index or slice out of range). */
  datatype GoResult<+T> = Done(value: T) | Failed(error: string) | Panic(reason: string)

  /** The failure of `r`, passed on as the failure of a computation of another type. */
  function Propagate<T, U>(r: GoResult<T>): (s: GoResult<U>)
    requires !r.Done?
    ensures r.Failed? ==> s == Failed(r.error)
    ensures r.Panic? ==> s == Panic(r.reason)
  {
    if r.Failed? then Failed(r.error) else Panic(r.reason)
  }
}
