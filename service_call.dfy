/**
 * One queued call and its reflective invocation (`StoreAndForward/ServiceCall.cs`,
 * with the event arguments of `ServiceProxyEventArgs.cs`).
 *
 * Reflection is not modelled: what the runtime would answer for one
 * invocation is the `Runtime` input — whether `GetRuntimeMethod` finds the
 * method by name, what invoking it (and awaiting it, for a Task) yields,
 * and what the target's `GetResult` does. An exception is given as the one
 * the `catch` block receives, so a synchronous throw arrives wrapped in a
 * `TargetInvocationException`.
 */
module ServiceCalls {
  import opened Wrappers
  import opened MessageTypes
  import opened Exceptions

  datatype ServiceProxyCallStatus =
    CompletedSuccessfully | CompletedWithError | FailedToSend | NotDestinedForTarget

  /** An argument or return value: `null`, or an object of a runtime type with its JSON text. */
  datatype Value = Null | Object(typeName: string, json: string)

  /** `Target.GetType().GetRuntimeMethod(MethodName, types)` on a non-null target. */
  datatype Lookup = Found | NotFound | LookupThrew(ex: Exception)

  /** Invoking the resolved method: its (awaited) value, or what the `catch` receives. */
  datatype Invocation = Returned(value: Value) | Threw(ex: Exception)

  /** The target's `GetResult(string, object)`: absent, or what invoking it yields. */
  datatype GetResultMethod = NoGetResult | HasGetResult(result: Invocation)

  /** The runtime's answers for one invocation. */
  datatype Runtime = Runtime(lookup: Lookup, invoke: Invocation, getResult: GetResultMethod)

  /** The outcome part of `ServiceProxyEventArgs`. */
  datatype Completion = Completion(
    status: ServiceProxyCallStatus,
    returnValue: Value,
    serviceException: Option<Exception>)

  const MissingGetResultError: Exception :=
    Exception(MissingMember, "GetResult method has not been implemented.", "", None)

  /**
   * `CallGetResult`: invoke the target's `GetResult`; when the target has
   * none, throw `MissingMemberException`. The `catch` only logs and rethrows.
   */
  function CallGetResult(m: GetResultMethod): (r: Invocation)
    ensures r.Threw? && r.ex.kind == MissingMember <==>
            m.NoGetResult? || (m.result.Threw? && m.result.ex.kind == MissingMember)
    ensures m.HasGetResult? ==> r == m.result
  {
    match m
    case NoGetResult => Threw(MissingGetResultError)
    case HasGetResult(result) => result
  }

  /** `ex is ErrorResponseException`, directly or as the inner exception of a reflection wrapper. */
  predicate IsErrorResponse(ex: Exception) {
    ex.kind == ErrorResponse ||
    (ex.kind == TargetInvocation && ex.inner.Some? && ex.inner.value.kind == ErrorResponse)
  }

  /** The exception a service listener sees: a reflection wrapper is unwrapped once. */
  function Unwrapped(ex: Exception): Option<Exception> {
    if ex.kind == TargetInvocation then ex.inner else Some(ex)
  }

  /** The method is invoked: it is resolved (given, or found by name) and the target is not null. */
  predicate Invokes(hasMethod: bool, hasTarget: bool, rt: Runtime) {
    hasTarget && (hasMethod || rt.lookup.Found?)
  }

  /**
   * The exception that reaches the `catch` block, if any: the lookup on a
   * null target dereferences it, a lookup may throw, and so may the
   * invocation and the `GetResult` call.
   */
  function Raised(hasMethod: bool, hasTarget: bool, useGetResult: bool, rt: Runtime): Option<Exception> {
    if !hasMethod && !hasTarget then Some(NullReferenceError)
    else if !hasMethod && rt.lookup.LookupThrew? then Some(rt.lookup.ex)
    else if !Invokes(hasMethod, hasTarget, rt) then None
    else if rt.invoke.Threw? then Some(rt.invoke.ex)
    else if useGetResult && CallGetResult(rt.getResult).Threw? then Some(CallGetResult(rt.getResult).ex)
    else None
  }

  /** The `catch` block: no return value, CompletedWithError only for a service refusal. */
  function Caught(ex: Exception): Completion {
    Completion(if IsErrorResponse(ex) then CompletedWithError else FailedToSend, Null, Unwrapped(ex))
  }

  /**
   * The outcome `InvokeServiceMethodAsync` reports, following its branches:
   * method resolution, invocation, the optional `GetResult`, and the
   * exception classification of the `catch` block.
   */
  function Classify(hasMethod: bool, hasTarget: bool, useGetResult: bool, rt: Runtime): (c: Completion)
    // A resolved method on a non-null target that returns normally completes successfully
    ensures c.status == CompletedSuccessfully <==>
            Invokes(hasMethod, hasTarget, rt) && rt.invoke.Returned? &&
            (useGetResult ==> CallGetResult(rt.getResult).Returned?)
    // ... with the invocation's value, or GetResult's value when UseGetResult is set
    ensures c.status == CompletedSuccessfully ==>
            c.returnValue == (if useGetResult then CallGetResult(rt.getResult).value else rt.invoke.value) &&
            c.serviceException.None?
    ensures c.status != CompletedSuccessfully ==> c.returnValue == Null
    // An unresolved method or a null target is not invoked, except that a name lookup on a null target throws
    ensures c.status == NotDestinedForTarget <==>
            (hasMethod && !hasTarget) || (!hasMethod && hasTarget && rt.lookup.NotFound?)
    ensures c.status == NotDestinedForTarget ==> c.serviceException.None?
    ensures !hasMethod && !hasTarget ==> c == Completion(FailedToSend, Null, Some(NullReferenceError))
    // Every exception is classified: a service refusal is CompletedWithError, anything else FailedToSend
    ensures Raised(hasMethod, hasTarget, useGetResult, rt).Some? <==>
            c.status == CompletedWithError || c.status == FailedToSend
    ensures Raised(hasMethod, hasTarget, useGetResult, rt).Some? ==>
            var ex := Raised(hasMethod, hasTarget, useGetResult, rt).value;
            (c.status == CompletedWithError <==> IsErrorResponse(ex)) &&
            c.serviceException == (if ex.kind == TargetInvocation then ex.inner else Some(ex))
    // UseGetResult on a target without GetResult fails to send with the MissingMemberException
    ensures Invokes(hasMethod, hasTarget, rt) && rt.invoke.Returned? && useGetResult && rt.getResult.NoGetResult? ==>
            c == Completion(FailedToSend, Null, Some(MissingGetResultError))
  {
    if !hasMethod && !hasTarget then Caught(NullReferenceError)
    else if !hasMethod && rt.lookup.LookupThrew? then Caught(rt.lookup.ex)
    else if !Invokes(hasMethod, hasTarget, rt) then Completion(NotDestinedForTarget, Null, None)
    else match rt.invoke
      case Threw(ex) => Caught(ex)
      case Returned(v) =>
        if !useGetResult then Completion(CompletedSuccessfully, v, None)
        else match CallGetResult(rt.getResult)
          case Threw(ex) => Caught(ex)
          case Returned(r) => Completion(CompletedSuccessfully, r, None)
  }

  /** `ServiceProxyEventArgs`: filled in step by step by the invocation, then by the proxy. */
  class ServiceProxyEventArgs {
    var methodName: string
    var status: ServiceProxyCallStatus
    var serviceException: Option<Exception>
    var returnValue: Value
    var callParameters: Option<seq<Value>>

    /** `new ServiceProxyEventArgs { Status = status, MethodName = methodName }`. */
    constructor (status: ServiceProxyCallStatus, methodName: string)
      ensures this.status == status && this.methodName == methodName
      ensures serviceException.None? && returnValue == Null && callParameters.None?
    {
      this.methodName := methodName;
      this.status := status;
      serviceException := None;
      returnValue := Null;
      callParameters := None;
    }

    function Outcome(): Completion
      reads this
    {
      Completion(status, returnValue, serviceException)
    }
  }

  /**
   * A queued call: its target, the method (given as `Method`, or to be
   * found by `MethodName`), its arguments and its queue attributes.
   * `listening` says whether a completion listener is subscribed.
   */
  class ServiceCall {
    var hasTarget: bool
    var methodName: string
    var hasMethod: bool
    var recurringMessageId: Guid
    var useGetResult: bool
    var parameters: Option<seq<Value>>
    var messageId: int
    var wifiOnly: bool
    var listening: bool

    constructor (hasTarget: bool, methodName: string, hasMethod: bool, recurringMessageId: Guid,
                 useGetResult: bool, parameters: Option<seq<Value>>, messageId: int, wifiOnly: bool)
      ensures this.hasTarget == hasTarget && this.methodName == methodName && this.hasMethod == hasMethod
      ensures this.recurringMessageId == recurringMessageId && this.useGetResult == useGetResult
      ensures this.parameters == parameters && this.messageId == messageId && this.wifiOnly == wifiOnly
      ensures !listening
    {
      this.hasTarget := hasTarget;
      this.methodName := methodName;
      this.hasMethod := hasMethod;
      this.recurringMessageId := recurringMessageId;
      this.useGetResult := useGetResult;
      this.parameters := parameters;
      this.messageId := messageId;
      this.wifiOnly := wifiOnly;
      listening := false;
    }

    /**
     * `InvokeServiceMethodAsync`, completing synchronously. The event
     * arguments start as FailedToSend and are updated as the invocation
     * proceeds; the subscribed listener, if any, is called once
     * (`notified`) whatever happened, and whatever it throws is swallowed.
     * The result is the return value on success and `null` otherwise.
     */
    method InvokeServiceMethodAsync(rt: Runtime) returns (ret: Value, eventArgs: ServiceProxyEventArgs, notified: bool)
      ensures fresh(eventArgs)
      ensures eventArgs.methodName == methodName && eventArgs.callParameters.None?
      ensures eventArgs.Outcome() == Classify(hasMethod, hasTarget, useGetResult, rt)
      ensures ret == if eventArgs.status == CompletedSuccessfully then eventArgs.returnValue else Null
      ensures notified == listening
    {
      ret := Null;
      eventArgs := new ServiceProxyEventArgs(FailedToSend, methodName);
      var thrown: Option<Exception> := None;
      // try
      var resolved := hasMethod;
      if !hasMethod {
        if !hasTarget {
          thrown := Some(NullReferenceError);
        } else {
          match rt.lookup
          case Found => resolved := true;
          case NotFound =>
          case LookupThrew(ex) => thrown := Some(ex);
        }
      }
      if thrown.None? {
        if resolved && hasTarget {
          match rt.invoke
          case Threw(ex) => thrown := Some(ex);
          case Returned(v) =>
            eventArgs.returnValue := v;
            if useGetResult {
              match CallGetResult(rt.getResult)
              case Threw(ex) => thrown := Some(ex);
              case Returned(r) => eventArgs.returnValue := r;
            }
            if thrown.None? {
              eventArgs.status := CompletedSuccessfully;
              ret := eventArgs.returnValue;
            }
        } else {
          eventArgs.status := NotDestinedForTarget;
        }
      }
      // catch
      if thrown.Some? {
        var ex := thrown.value;
        eventArgs.returnValue := Null;
        if IsErrorResponse(ex) {
          eventArgs.status := CompletedWithError;
        } else {
          eventArgs.status := FailedToSend;
        }
        if ex.kind == TargetInvocation {
          eventArgs.serviceException := ex.inner;
        } else {
          eventArgs.serviceException := Some(ex);
        }
      }
      // finally
      notified := listening;
    }
  }
}
