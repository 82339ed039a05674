/** Small value types shared by the rest of the model. */
module Base {

  /** Rust's `u16`, used for the cursor's column and row. */
  type U16 = x: int | 0 <= x < 0x1_0000

  /** Rust's `Option<T>`. */
  datatype Option<+T> = None | Some(value: T)

  /** Rust's `Result<T, E>`; `?` on an `Err` returns it to the caller. */
  datatype Result<+T, +E> = Ok(value: T) | Err(error: E)
}
