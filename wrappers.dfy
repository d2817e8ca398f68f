/** Option, Result and Outcome, shared by the model. */
module Wrappers {

  /** A value that may be missing: `None` stands for JavaScript's null or undefined. */
  datatype Option<+T> = None | Some(value: T)

  /** A promise that resolves with `value` or rejects with `error`. */
  datatype Result<+T, +E> = Success(value: T) | Failure(error: E)

  /** A promise of nothing: it resolves (`Pass`) or rejects with `error`. */
  datatype Outcome<+E> = Pass | Fail(error: E)
}
