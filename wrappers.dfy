/** Option and the HTTP status vocabulary shared by every controller. */
module Wrappers {

  datatype Option<+T> = None | Some(value: T) {
    function GetOr(default: T): T {
      match this
      case Some(v) => v
      case None => default
    }
  }

  /** The status codes the controllers answer with. */
  datatype Status =
    | Ok            // 200
    | Created       // 201
    | BadRequest    // 400: validation failed, duplicate like, self-follow, ...
    | Unauthorized  // 401
    | Forbidden     // 403: not the post's author
    | NotFound      // 404
    | Conflict      // 409: email already registered
    | InternalError // 500: an exception escaped the handler
  {
    function Code(): nat {
      match this
      case Ok => 200
      case Created => 201
      case BadRequest => 400
      case Unauthorized => 401
      case Forbidden => 403
      case NotFound => 404
      case Conflict => 409
      case InternalError => 500
    }
  }

  /** A read-only handler's answer: a 200 body, or an error status. */
  datatype Result<+T> = Success(value: T) | Failure(status: Status)
}
