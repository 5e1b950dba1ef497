/**
 * Failure-carrying wrappers shared by the model: `Option` for a value that
 * may be absent, `Result` for an operation that may raise.
 */
module Base {

  datatype Option<+T> = None | Some(value: T)

  datatype Result<+R, +E> = Success(value: R) | Failure(error: E)
}
