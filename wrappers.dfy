/** Optional values and success-or-error results. */
module Wrappers {

  /** A value that may be absent: an unset document field or request field. */
  datatype Option<+T> = None | Some(value: T)

  /** The outcome of a request handler: a value, or the kind of error it answers with. */
  datatype Result<+R, +E> = Success(value: R) | Failure(error: E)
}
