/** Success/failure wrappers for the values app.js returns or throws. */
module Results {

  /** A value that may be absent (`undefined` in the source). */
  datatype Option<+T> = None | Some(value: T)

  /** A value, or the error the source would throw instead of returning it. */
  datatype Result<+T, +E> = Ok(value: T) | Err(error: E)
}
