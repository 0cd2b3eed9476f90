/** Failure-carrying values shared by the whole model: Go's `nil` / `(value, error)` pairs. */
module Results {

  /** A value that may be absent: Go's nil slice or nil `*T` is `None`. */
  datatype Option<+T> = None | Some(value: T)

  /** Go's `(value, error)` return: `Err` carries the error's message. */
  datatype Result<+T> = Ok(value: T) | Err(msg: string)
}
