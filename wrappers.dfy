/** Failure-carrying wrappers shared by the modules of this model. */
module Wrappers {

  /** A value that may be absent: Go's nil pointer, or a map lookup that found nothing. */
  datatype Option<+T> = None | Some(value: T)

  /** The (value, error) pair that Go functions return. */
  datatype Result<+R, +E> = Success(value: R) | Failure(error: E)
}
