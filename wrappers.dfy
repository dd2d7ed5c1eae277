/** Failure-carrying result types shared by the crawler's modules. */
module Wrappers {

  /** A value that may be absent: the model of a Go `(value, err)` pair whose error carries no detail. */
  datatype Option<+T> = None | Some(value: T)

  /** A value or an error of type E. */
  datatype Result<+T, +E> = Ok(value: T) | Err(error: E)
}
