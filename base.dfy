/** Small shared vocabulary: optional values, results and bytes. */
module Base {

  datatype Option<+T> = None | Some(value: T)

  datatype Result<+T, +E> = Ok(value: T) | Err(error: E)

  /** An unsigned 8-bit integer, Rust's `u8`. */
  newtype u8 = x: int | 0 <= x < 256
}
