/** The runtime exceptions the core throws, as values. */
module Exceptions {

  datatype Exception =
    | DimensionMismatch                // DimensionMismatchException
    | IllegalState(message: string)    // IllegalStateException
    | IllegalArgument(message: string) // IllegalArgumentException (Guava checkArgument)
    | Arithmetic(message: string)      // ArithmeticException (integer division by zero)
}
