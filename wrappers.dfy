/** Result and option types shared by the whole model.

    The NestJS services signal failure by throwing `NotFoundException`,
    `BadRequestException`, or by letting a database error escape (a foreign
    key or unique constraint violation, answered with HTTP 500). The model
    returns these as values instead. */
module Wrappers {

  /** A nullable value (`T | null | undefined` in the source). */
  datatype Option<+T> = None | Some(value: T) {
    function GetOr(default: T): T {
      match this
      case Some(v) => v
      case None => default
    }
  }

  /** Why an operation of a service failed. */
  datatype Failure =
    | NotFound(message: string)
    | BadRequest(message: string)
    | Internal(message: string)

  /** The outcome of a service call: the value it resolves to, or the exception it throws. */
  datatype Result<+T> = Ok(value: T) | Err(failure: Failure)

  /** The value of an operation that resolves to `void`. */
  datatype Unit = Unit
}
