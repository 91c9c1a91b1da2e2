/** Failure-carrying values used across the model in place of JavaScript's
    `null`, `undefined` and thrown errors. */
module Outcomes {

  /** A value that may be absent (`null` / `undefined` in the source). */
  datatype Option<+T> = None | Some(value: T)

  /** A computed value, or the error a call throws instead. */
  datatype Result<+T, +E> = Success(value: T) | Failure(error: E)

  /** Completion of a call that returns nothing (`Promise<void>`), or the error it throws. */
  datatype Outcome<+E> = Pass | Fail(error: E)
}
