// Optional values and results shared by every module of the model.
module Wrappers {
  datatype Option<+T> = None | Some(value: T)

  datatype Result<+T, +E> = Ok(value: T) | Err(error: E)

  /** An HTTP error raised by a route: the status code and the `detail` text. */
  datatype HttpError = HttpError(status: int, detail: string)
}
