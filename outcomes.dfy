/** Exceptions raised by the modelled code, and a value-or-exception wrapper. */
module Outcomes {

  /** The exceptions the modelled operations raise. Messages are kept where the
      source builds them itself. */
  datatype Error =
    | ValueError(message: string)
    | KeyError(message: string)
      /** torch.cat was handed an empty list of tensors; torch raises a
          RuntimeError, which the model names after its cause */
    | EmptyTensorList
      /** the first row of an empty tensor was asked for */
    | IndexError

  /** Either the value an operation returned or the exception it raised. */
  datatype Outcome<+T> = Ok(value: T) | Raised(error: Error)

  /** A Python argument that may be `None`. */
  datatype Option<+T> = None | Some(value: T) {
    /** `x or default`, for a value that is never falsy. */
    function GetOr(default: T): T {
      match this
      case Some(v) => v
      case None => default
    }
  }
}
