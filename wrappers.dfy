/** Failure-compatible result types shared by the other modules. */
module Wrappers {

  datatype Option<+T> = None | Some(value: T)

  /** The outcome of a step that either yields a value or raises. */
  datatype Result<+T, +E> = Success(value: T) | Failure(error: E)
}
