/** Option and Result datatypes used throughout the model. */
module Wrappers {

  /** A value that may be absent; Ruby's `nil` is modelled as `None`. */
  datatype Option<+T> = None | Some(value: T)

  /** The outcome of a step that can abort the run with an error `E`. */
  datatype Result<+T, +E> = Success(value: T) | Failure(error: E)
}
