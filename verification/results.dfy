/** Plain wrappers for the Python code's optional values (`None` or a
    value) and for its "return or raise" outcomes. */
module Results {

  /** A value that may be absent (Python's `None`). */
  datatype Option<+T> = None | Some(value: T)

  /** The outcome of a call that either returns a value or raises; the
      error side carries the text of the exception (`str(e)`). */
  datatype Result<+T, +E> = Ok(value: T) | Err(error: E)
}
