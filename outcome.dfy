/** Optional values and the HTTP error outcomes of the request handlers. */
module Outcome {

  datatype Option<T> = None | Some(value: T)

  /** The error kinds the handlers raise, one per HTTP status they use. */
  datatype HttpError =
    | NotFound       // 404
    | BadRequest     // 400
    | Unauthorized   // 401
    | Forbidden      // 403
    | Gone           // 410

  /** A handler either returns a value or raises an HTTP error. */
  datatype Result<T> = Ok(value: T) | Err(error: HttpError)
}
