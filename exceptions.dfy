/**
 * The exceptions that reach the gateway and the error handler, and the abstract
 * outcome of a store commit.
 */
module Exceptions {

  /** One element of a request-validation error location: a field name or a list index. */
  datatype LocPart = Name(name: string) | Index(index: nat)

  /** One entry of `RequestValidationError.errors()`: where the problem is and what it is. */
  datatype ValidationItem = ValidationItem(loc: seq<LocPart>, msg: string)

  /**
   * The exception kinds the error handler tells apart. `HTTPException` is FastAPI's
   * class, the one the handler tests for; Starlette's base `HTTPException` (raised by
   * the router for an unknown path or a wrong method) is not an instance of it and is an
   * `OtherException` named "HTTPException". `ValueError` covers `ValueError` and its
   * subclasses (pydantic's `ValidationError` among them); `OtherException` is every
   * other class, named by `className`. For the last two, `message` is `str(exc)`.
   */
  datatype Exception =
    | RequestValidationError(errors: seq<ValidationItem>)
    | HTTPException(statusCode: int, detail: string)
    | ValueError(message: string)
    | OtherException(className: string, message: string)

  /**
   * What a store commit reports. Each failure carries `str(e)`; an `IntegrityError`
   * also carries the driver's original message (`e.orig`).
   */
  datatype CommitOutcome =
    | Committed
    | IntegrityError(orig: string, text: string)
    | ValidationError(text: string)
    | OtherError(text: string)
  {
    /** `str(e)` of the failure: what the audit logger prints and what `delete` reports. */
    function Text(): string
      requires !Committed?
    {
      match this
      case IntegrityError(_, t) => t
      case ValidationError(t) => t
      case OtherError(t) => t
    }
  }
}
