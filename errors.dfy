/** What a service hands back: `failure(error)` or `success(value)`, and the
    error classes a failure carries. Each class is known by its kind and its
    message; the HTTP status the kind stands for belongs to the web layer. */
module Errors {
  datatype AppError =
    | BadRequest(message: string)
    | Unauthorized(message: string)
    | NotFound(message: string)
    | Conflict(message: string)
    | UnprocessableEntity(message: string)

  datatype Either<+E, +T> = Failure(error: E) | Success(value: T)
}
