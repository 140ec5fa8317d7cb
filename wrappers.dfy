/** Optional values (Java's nullable references) and results (Java's exceptions). */
module Wrappers {

  datatype Option<T> = None | Some(value: T)
  {
    function UnwrapOr(default: T): T
    {
      match this
      case None => default
      case Some(v) => v
    }
  }

  /** The exceptions the modelled Java code can throw. */
  datatype Error =
    | BugInCF(message: string)
    | AssertionError(message: string)
    | NullPointer(message: string)
    | ClassCast(message: string)
    | UnsupportedOperation(message: string)
    | IndexOutOfBounds(message: string)
    | NumberFormat(message: string)
    | TypeSystemError(message: string)
    | NoSuchElement(message: string)
    | Runtime(message: string)

  datatype Result<T> = Success(value: T) | Failure(error: Error)
  {
    predicate IsFailure()
    {
      Failure?
    }

    function PropagateFailure<U>(): Result<U>
      requires Failure?
    {
      Failure(error)
    }

    function Extract(): T
      requires Success?
    {
      value
    }
  }
}
