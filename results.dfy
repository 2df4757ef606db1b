/** Failure-carrying return types shared by the land-model and fixed-supply modules. */
module Results {

  /** A value that may be absent (a missing key, an unparsable field). */
  datatype Option<+T> = None | Some(value: T)

  /** The value an operation computes, or the error it raises. */
  datatype Result<+T, +E> = Success(value: T) | Failure(error: E)

  /** The outcome of a check or of an operation run for its effect. */
  datatype Outcome<+E> = Pass | Fail(error: E)
}
