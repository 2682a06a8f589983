/** Failure-compatible wrappers shared by the other modules. */
module Outcomes {

  /** A value that may be absent, such as the optional face box of the cropper. */
  datatype Option<T> = None | Some(value: T)

  /** The result of an operation that can fail with an error value. */
  datatype Result<T, E> = Success(value: T) | Failure(error: E)
}
