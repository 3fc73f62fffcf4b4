/** Option and Result, the shapes every module uses for "maybe absent" and
    "value or rejection" (the promises and thrown errors of the service). */
module Results {

  /** A value that may be absent (a JavaScript `undefined` field). */
  datatype Option<+T> = None | Some(value: T)

  /** A resolved value or a rejection reason. */
  datatype Result<+T, +E> = Ok(value: T) | Err(error: E)
}
