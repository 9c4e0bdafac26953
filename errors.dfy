/** The Python exceptions the modelled code can raise, and a result type that
    carries either a value or the exception that replaced it. */
module Errors {

  /** Python itself has no MathDomainError: math.sqrt of a negative number and
      math.asin outside [-1, 1] raise ValueError("math domain error"), the
      same class numpy.linspace raises for a negative count. The model keeps
      the two causes apart so that each contract says which one occurred. */
  datatype PyError =
    | ZeroDivisionError   // float or int division by zero
    | MathDomainError     // ValueError("math domain error") from math.sqrt or math.asin
    | IndexError          // a coefficient list shorter than the slot it reads
    | ValueError          // numpy.linspace asked for a negative number of samples

  datatype Result<+T> = Ok(value: T) | Err(error: PyError)
}
