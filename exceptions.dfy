/** The exceptions the calculator raises, folded into one datatype, and the
    failure-carrying result types that replace `raise`. */
module Exceptions {

  /** One constructor per exception class the core raises or lets through. */
  datatype Error =
    | ValidationError(message: string)   // app.exceptions.ValidationError
    | OperationError(message: string)    // imported by app/calculator.py as OperationError
    | ValueError(message: string)        // Python's built-in ValueError
    | TypeError(message: string)         // Python's built-in TypeError
    | OtherError(message: string)        // any other exception: OverflowError, decimal.InvalidOperation, ...
  {
    /** Both project exceptions derive from CalculatorError. */
    predicate IsCalculatorError() {
      ValidationError? || OperationError?
    }
  }

  /** Python's `Optional`: `None` or a value. */
  datatype Option<+T> = None | Some(value: T)

  /** A call that returns a value or raises. */
  datatype Result<+T> = Success(value: T) | Failure(error: Error)

  /** A call that returns None or raises. */
  datatype Outcome = Pass | Fail(error: Error)
}
