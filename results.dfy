/** The unchecked exceptions the decoder can raise, and a result type that carries them. */
module Results {

  /** `ArrayIndexOutOfBoundsException` (a read past the end of the output
      buffer, or `Vector.get` past the end of the label table) and
      `NegativeArraySizeException` (`new double[numClass]` with a negative
      class count). */
  datatype Exception = ArrayIndexOutOfBounds | NegativeArraySize

  /** The outcome of a computation that either returns normally or throws. */
  datatype Result<+T> = Ok(value: T) | Err(error: Exception)

  datatype Option<+T> = None | Some(value: T)
}
