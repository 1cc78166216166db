/** Exceptions raised by the modelled Java code, and the failure-compatible
    wrappers that stand for "returns a value or throws". */
module Results {

  /** The Java exceptions the core can raise. */
  datatype Exception =
    | IllegalArgument        // IllegalArgumentException (watering frequency below 1)
    | NumberFormat           // NumberFormatException (Integer.parseInt)
    | IndexOutOfBounds       // ArrayIndexOutOfBoundsException (too few date segments)
    | IllegalFieldValue      // Joda IllegalFieldValueException (not a calendar date)
    | Arithmetic             // ArithmeticException (a day count that does not fit an int)

  datatype Option<+T> = None | Some(value: T)

  /** A value, or the exception thrown instead of it. */
  datatype Result<+T> = Success(value: T) | Failure(error: Exception) {
    predicate IsFailure() { Failure? }
    function PropagateFailure<U>(): Result<U> requires Failure? { Failure(error) }
    function Extract(): T requires Success? { value }
  }

  /** The outcome of a `void` Java method: it returns normally or throws. */
  datatype Outcome = Pass | Fail(error: Exception)
}
