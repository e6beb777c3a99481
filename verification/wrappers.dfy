/** Option and Result, the two wrappers the model uses. */
module Wrappers {

  datatype Option<+T> = None | Some(value: T)

  /** A computation that either yields a value or raises an error (a thrown exception in the page script). */
  datatype Result<+R, +E> = Success(value: R) | Failure(error: E)
}
