/** Failure-carrying wrappers shared by the model. */
module Common {

  /** A value or its absence; also the outcome of an external evaluator (None = it raised). */
  datatype Option<+T> = None | Some(value: T)

  /** A value or the error that stopped its computation (a Python exception). */
  datatype Result<+T, +E> = Success(value: T) | Failure(error: E)
}
