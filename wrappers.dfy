/** Option and Result datatypes shared by the other modules. */
module Wrappers {

  /** A value that may be absent: a missing publish date, a failed fetch, a missing "Next" link. */
  datatype Option<+T> = None | Some(value: T)

  /** The outcome of an operation that can fail with an error value. */
  datatype Result<+R, +E> = Ok(value: R) | Err(error: E)
}
