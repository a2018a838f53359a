/** Error values for the exceptions the marketplace raises, and the usual
    Option / Result / Outcome wrappers built on them. */
module Errors {

  datatype Option<+T> = None | Some(value: T)

  /** The exceptions the modelled code raises or lets escape. */
  datatype Error =
    /** django.core.exceptions.ValidationError raised by a model or field validator */
    | Invalid(message: string)
    /** rest_framework ValidationError({field: message}) */
    | ValidationError(field: string, message: string)
    /** rest_framework PermissionDenied; a bare string becomes the "detail" field */
    | PermissionDenied(field: string, message: string)
    /** Model.DoesNotExist raised by a lookup that finds no row */
    | DoesNotExist(model: string)
    /** a database unique constraint rejecting a write */
    | IntegrityError(constraint: string)
    /** AttributeError raised by an attribute access on None */
    | AttributeError(attribute: string)

  datatype Result<+T> = Ok(value: T) | Err(error: Error)

  /** The outcome of a check that returns nothing when it passes. */
  datatype Outcome = Pass | Fail(error: Error)
}
