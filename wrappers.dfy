/** Failure-carrying values: the Go pair `(value, error)` becomes `Result`,
    a bare `error` return becomes `Outcome`, and `(value, ok)` becomes `Option`. */
module Wrappers {

  datatype Option<+T> = None | Some(value: T)

  /** A Go result together with the text of its error. */
  datatype Result<+T> = Success(value: T) | Failure(error: string)

  /** A Go `error` return: `nil` is `Pass`. */
  datatype Outcome = Pass | Fail(error: string)
}
