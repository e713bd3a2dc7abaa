/** Values shared by the game client and the backend: optional values and
    the status-plus-message error that a route handler answers with. */
module Common {

  datatype Option<+T> = None | Some(value: T)

  /** An HTTP error answer: a status code and the `error` text of its JSON body. */
  datatype HttpError = HttpError(status: int, message: string)

  /** What a route handler answers: a JSON result or an error. */
  datatype Result<+T> = Ok(value: T) | Err(error: HttpError)
}
