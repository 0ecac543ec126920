/** Values shared by every module of the model: optional values, the HTTP
    error responses the routes send, and document identifiers. */
module Common {

  /** A value that may be absent (`undefined` / `null` in the source). */
  datatype Option<+T> = None | Some(value: T) {
    function GetOr(default: T): T {
      match this
      case Some(v) => v
      case None => default
    }
  }

  /** The error responses of the Express routes. `missing` lists, in the
      order the route reports them, the names of the fields whose flag in
      the response's `missing` object is true; it is empty for every other
      client error. */
  datatype Failure =
    | BadRequest(message: string, missing: seq<string>)
    | Unauthorized(message: string)
    | NotFound(message: string)
    | ServerError(message: string)
  {
    /** The HTTP status code the route sends with this failure. */
    function Status(): int {
      match this
      case BadRequest(_, _) => 400
      case Unauthorized(_) => 401
      case NotFound(_) => 404
      case ServerError(_) => 500
    }
  }

  /** A route's outcome: the JSON body of a success, or the failure sent. */
  datatype Result<+T> = Ok(value: T) | Err(failure: Failure)

  /** A request field that JavaScript treats as truthy: given and not the
      empty string. */
  predicate Present(s: Option<string>) {
    s.Some? && s.value != []
  }

  /** A document identifier (a Mongo ObjectId, abstracted to a number). */
  type Id = nat
}
