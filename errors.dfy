/** The exceptions the driver raises, and the two ways a step can end: it passes, or it
    raises; or it returns a value, or it raises. */
module Errors {

  /** Python's `ValueError` and `RuntimeError`, each with the text `str(e)` gives. */
  datatype Error = ValueError(message: string) | RuntimeError(message: string)

  /** A step that returns nothing: it passes or it raises. */
  datatype Outcome = Pass | Fail(error: Error)

  /** A step that returns a value or raises. */
  datatype Result<+T> = Success(value: T) | Failure(error: Error)
}
