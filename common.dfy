/** Shapes shared by every module of the model: Go's `error`, its `(value, error)` return
    pair and its `byte`. An error is modelled by the text its `Error()` method returns. */
module Common {

  /** An 8-bit unsigned integer, Go's `byte`. */
  type byte = b: int | 0 <= b < 256

  datatype Option<+T> = None | Some(value: T)

  /** The outcome of a Go call that returns either a value or a non-nil error. */
  datatype Result<+T> = Success(value: T) | Failure(error: string)

  /** The pair `(value, err)` of a Go function that returns both, whatever the error is:
      a caller can observe `value` even when `err` is non-nil. */
  datatype Outcome<+T> = Outcome(value: T, err: Option<string>)
}
