/** Small value types shared by the token model. */
module Base {

  /** A nullable value: Kotlin's `T?`. */
  datatype Option<+T> = None | Some(value: T)

  /** The outcome of an operation that can throw: the value, or the error it raised. */
  datatype Result<+T, +E> = Ok(value: T) | Err(error: E)

  /** An octet; Kotlin's `ByteArray` elements read as unsigned values. */
  newtype byte = b: int | 0 <= b < 256

  /** The range of Kotlin's `Long`, a signed 64-bit integer. */
  predicate IsLong(x: int)
  {
    -0x8000_0000_0000_0000 <= x <= 0x7fff_ffff_ffff_ffff
  }

  newtype Long = x: int | IsLong(x)
}
