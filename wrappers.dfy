/** Option and Result types shared by every module, and the two exception
    kinds the backend raises: `ValueError` for rejected input and a plain
    `Exception` for failures wrapped by the embedding and language-model
    services. */
module Wrappers {

  datatype Option<+T> = None | Some(value: T) {
    function GetOr(default: T): T {
      match this
      case Some(v) => v
      case None => default
    }
  }

  /** The exception a Python call raises, with its message. */
  datatype Error =
    | ValueError(message: string)
    | GenericError(message: string)

  datatype Result<+T> = Ok(value: T) | Err(error: Error) {
    predicate IsFailure() {
      Err?
    }

    function PropagateFailure<U>(): Result<U>
      requires Err?
    {
      Err(error)
    }

    function Extract(): T
      requires Ok?
    {
      value
    }
  }
}
