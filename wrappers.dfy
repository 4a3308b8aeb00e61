/** Small datatypes shared by every module of the model. */
module Wrappers {

  /** A value that may be absent: a missing request field, an unset
      environment variable, a JavaScript `NaN` where a number was parsed. */
  datatype Option<T> = None | Some(value: T) {
    function GetOr(default: T): T {
      match this
      case Some(v) => v
      case None => default
    }
  }

  /** The outcome of a validation: the validated value or the first error. */
  datatype Result<T, E> = Success(value: T) | Failure(error: E)

  /** The HTTP status codes the controllers answer with on the paths modelled. */
  datatype Status = Ok200 | Created201 | BadRequest400 | NotFound404
}
