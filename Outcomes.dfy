/** How a call of the modelled Java code ends: it returns a value or throws. */
module Outcomes {

  /** The runtime exceptions the modelled code can raise. */
  datatype Exception =
    | StringIndexOutOfBounds   // String.substring with a negative end index
    | ArrayIndexOutOfBounds    // the letter-value table indexed by a non-letter
    | InputExhausted           // a token is read after the input has ended

  datatype Result<T> = Returned(value: T) | Threw(exception: Exception)
}
