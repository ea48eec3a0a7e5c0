/** Failure-carrying wrappers used to model absent values and failed remote operations. */
module Wrappers {

  /** A value that may be missing: an unparsable input, an absent session id. */
  datatype Option<+T> = None | Some(value: T)

  /** The outcome of a remote operation that yields a value or fails with a message. */
  datatype Result<+T, +E> = Ok(value: T) | Err(error: E)

  /** The outcome of a remote operation that yields nothing or fails with a message. */
  datatype Outcome<+E> = Pass | Fail(error: E)
}
