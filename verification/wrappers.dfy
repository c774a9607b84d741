/** Small failure-carrying datatypes shared by every module of the model. */
module Wrappers {

  /** Go's "possibly nil" values: `None` is nil (a nil slice, a nil map, a nil error). */
  datatype Option<+T> = None | Some(value: T)

  /** The error returned by a Go call that yields only `error`: `Pass` is a nil error. */
  datatype Outcome = Pass | Fail(error: string)

  /** A Go call that yields `(T, error)`. */
  datatype Result<+T> = Success(value: T) | Failure(error: string)

  /** A Go computation that either returns normally or panics (a failed type assertion,
      an index out of range). A panic discards every partial result, so it carries none. */
  datatype Run<+T> = Returns(value: T) | Panics
}
