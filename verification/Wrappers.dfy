/** Results of operations that throw in the original. */
module Wrappers {

  /** The exceptions of the original that the modelled code throws. */
  datatype Error =
    | EndOfFile
    | BadPosition
    | BadParam
    | UnknownSignature
    | StringsDontSeemUniCStr
    | WeirdDirectorySize
    | WeirdPartSize
    | NoName | UnknownError

  datatype Option<+T> = None | Some(value: T)

  datatype Result<+T, +E> = Success(value: T) | Failure(error: E) {

    predicate IsFailure() {
      Failure?
    }

    function PropagateFailure<U>(): Result<U, E>
      requires Failure?
    {
      Failure(error)
    }

    function Extract(): T
      requires Success?
    {
      value
    }
  }
}
