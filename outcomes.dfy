/** Values and exceptions that cross the global-container layer. */
module Outcomes {

  datatype Option<+T> = None | Some(value: T)

  /** The name of a requested type, as carried by `DependencyNotFound`. */
  type TypeName = string

  /** An arbitrary Python object returned by a wrapped call, known only by its identity. */
  datatype Value = Value(id: nat)

  /** The exceptions this layer raises or lets through. `DependencyNotFound` and
      `InvalidProvider` are the two the fallback resolver recovers from; everything
      else a wrapped call may raise is `OtherError`. */
  datatype Error =
    | DependencyNotFound(missing: TypeName)
    | InvalidProvider(reason: string)
    | ValueError(message: string)
    | RuntimeError(message: string)
    | OtherError(kind: string, message: string)

  /** A call either returns a value or raises an exception. */
  datatype Outcome<+T> = Returned(value: T) | Raised(error: Error)

  /** The type named by the error raised when there is no container to try. */
  const ObjectType: TypeName := "object"
}
