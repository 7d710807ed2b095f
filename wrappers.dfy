/** Option and Result values shared by the other modules. */
module Wrappers {

  /** A value that may be absent: `undefined`, a missing field, a failed parse. */
  datatype Option<+T> = None | Some(value: T)

  /** The outcome of a step that either returns a value or throws an error. */
  datatype Result<+R, +E> = Success(value: R) | Failure(error: E)
}
