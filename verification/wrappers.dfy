/** Failure-carrying result types shared by the ETL model. */
module Wrappers {

  /** A value that may be absent; JavaScript's `null` in the cleaned row. */
  datatype Option<+T> = None | Some(value: T)

  /** The outcome of a step that either returns a value or throws. */
  datatype Result<+R, +E> = Success(value: R) | Failure(error: E)
}
