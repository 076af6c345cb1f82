/** Option, Result and Outcome: Java's null, a value-or-exception, and a check that passes or throws. */
module Wrappers {

  /** `None` stands for Java's `null` (and JavaScript's `null`/`undefined`). */
  datatype Option<+T> = None | Some(value: T)

  /** The value a Java method returns, or the exception it throws instead. */
  datatype Result<+R, +E> = Success(value: R) | Failure(error: E)

  /** A `void` Java check: it returns normally or throws. */
  datatype Outcome<+E> = Pass | Fail(error: E)
}
