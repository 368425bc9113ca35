/** Rust's `Option` and `Result<T, String>` as the program uses them. */
module Results {

  datatype Option<T> = None | Some(value: T)

  /** A value, or an error message formatted into a `String`. */
  datatype Result<T> = Ok(value: T) | Err(error: string)
}
