/** Failure-carrying values shared by the modules of the model. */
module Wrappers {

  datatype Option<+T> = None | Some(value: T)

  /** The outcome of a step that can abort the conversion run. */
  datatype Result<+T, +E> = Success(value: T) | Failure(error: E)
}
