/** Shared datatypes: optional values, results, and the HTTP errors the services throw. */
module Common {

  datatype Option<+T> = None | Some(value: T) {
    /** The value, or `default` when there is none (JavaScript's `x ?? default`). */
    function GetOr(default: T): T {
      match this
      case Some(v) => v
      case None => default
    }
  }

  datatype Result<+T, +E> = Ok(value: T) | Err(error: E)

  /** The HTTP status codes the core raises. */
  datatype Status = BadRequest | Unauthorized | NotFound {
    function Code(): nat {
      match this
      case BadRequest => 400
      case Unauthorized => 401
      case NotFound => 404
    }
  }

  /** An `HttpException`: a status and the human-readable message sent to the caller. */
  datatype HttpError = HttpError(status: Status, message: string)

  /** A successful mutation reply `{ message, data }`; `data` is absent for deletions. */
  datatype Reply<+T> = Reply(message: string, data: Option<T>)
}
