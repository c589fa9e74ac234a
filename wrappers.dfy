/** Failure-carrying values shared by every part of the model. */
module Wrappers {

  datatype Option<+T> = None | Some(value: T)

  /** The outcome of one call to the REST server: the response body, or a
      rejection carrying the server's optional `message`. */
  datatype Response<+T> = Ok(data: T) | Failed(message: Option<string>)

  datatype Result<+T, +E> = Success(value: T) | Failure(error: E)
}
