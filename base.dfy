/** Value types shared by the whole model: the fixed-width integers and byte strings
    of the Rust crate, and its error-carrying results. */
module Base {
  /** Rust's `i32`. */
  newtype int32 = x: int | -0x8000_0000 <= x < 0x8000_0000

  /** Rust's `u8`. */
  newtype byte = x: int | 0 <= x < 0x100

  datatype Option<T> = None | Some(value: T)

  /** The crate's `Result<T>`; the error is carried as its message text. */
  datatype Result<T> = Ok(value: T) | Err(error: string)
}
