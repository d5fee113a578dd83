/** Java values the model needs: nullable references, the exceptions the
    modelled code can throw, and the range of a Java `int`. */
module JavaLang {

  /** A nullable Java reference: `None` is `null`. */
  datatype Option<+T> = None | Some(value: T)

  /** The exceptions the modelled Java code raises on bad input. */
  datatype Exception = NullPointerException | IllegalArgumentException

  /** The outcome of a Java call that either returns or throws. */
  datatype Result<+T> = Ok(value: T) | Throws(exception: Exception)

  const INT_MIN: int := -0x8000_0000
  const INT_MAX: int := 0x7fff_ffff

  /** Java's 32-bit `int` (and the values of a non-null `Integer`). */
  type int32 = x: int | -0x8000_0000 <= x <= 0x7fff_ffff
}
