/** Option and Result datatypes shared by the client model. */
module Wrappers {

  /** A value that may be absent (JavaScript `undefined`/`null`). */
  datatype Option<+T> = None | Some(value: T)

  /** The single outcome a completion callback receives: data or an error. */
  datatype Result<+R, +E> = Success(value: R) | Failure(error: E)
}
