/**
 * The .NET exceptions the queue inspects: what kind each is (the classes
 * `ServiceCall` tests with `is`), its message and stack trace, and the
 * `InnerException` chain. A `null` inner exception is `None`.
 */
module Exceptions {
  import opened Wrappers

  /** The exception classes the model tells apart. */
  datatype ExceptionKind =
    | ErrorResponse       // ErrorResponseException, the proxied service's "request refused"
    | TargetInvocation    // TargetInvocationException, how reflection wraps a throwing callee
    | MissingMember       // MissingMemberException
    | NullReference       // NullReferenceException
    | Argument            // ArgumentException
    | OperationCanceled   // OperationCanceledException
    | Other(name: string) // any other class, by name

  datatype Exception = Exception(
    kind: ExceptionKind,
    message: string,
    stackTrace: string,
    inner: Option<Exception>)

  /** The outermost exception and each `InnerException` below it, outermost first. */
  function Chain(ex: Option<Exception>): (r: seq<Exception>)
    ensures ex.None? <==> r == []
    ensures ex.Some? ==> r[0] == ex.value
    decreases ex
  {
    match ex
    case None => []
    case Some(e) => [e] + Chain(e.inner)
  }

  /** What dereferencing `null` throws. */
  const NullReferenceError: Exception :=
    Exception(NullReference, "Object reference not set to an instance of an object.", "", None)
}
