/** Failure-carrying values used at every boundary where the Go code returns an `error`. */
module Wrappers {

  datatype Option<+T> = None | Some(value: T)

  datatype Result<+T, +E> = Ok(value: T) | Err(error: E)

  /** An `error` return with no value beside it: nil (Pass) or an error (Fail). */
  datatype Outcome<+E> = Pass | Fail(error: E)
}
