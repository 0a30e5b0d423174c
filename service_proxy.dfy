/**
 * The queue orchestrator `ServiceProxy<T>` (`StoreAndForward/ServiceProxy.cs`):
 * it turns a call into a stored message, replays pending messages against
 * the proxied service, and moves each message through its states as the
 * invocation completes.
 *
 * The proxied service is present or not (`hasService`); reflection is the
 * `Runtime` of each invocation (`env`, by message id); the JSON payload of a
 * call is opaque text, produced by the caller and read back by `decodeCall`
 * and `decodeArg`. Every invocation completes synchronously, right after the
 * pre-invoke update; the proxy's own store operations always obtain the
 * store's lock. Cancellation of the worker token is a count of steps after
 * which the token reads as cancelled.
 */
module ServiceProxies {
  import opened Wrappers
  import opened MessageTypes
  import opened Exceptions
  import opened DbMessages
  import opened MessageStore
  import opened ServiceCalls
  import Strings

  const ObjectTypeName: string := "System.Object"
  const ServiceCallTypeName: string := "DroidServiceTest.Core.StoreAndForward.ServiceCall"

  /** The worker's wait loop sleeps in steps of this many milliseconds. */
  const PollStep: int := 5000

  /** The range of `Convert.ToInt32`; a retry interval outside it throws OverflowException. */
  const Int32Min: int := -0x8000_0000
  const Int32Max: int := 0x7fff_ffff

  predicate FitsInt32(n: int) {
    Int32Min <= n <= Int32Max
  }

  /** `WifiConnected`: the platform query is commented out and the property is always true. */
  const WifiConnected: bool := true

  const NullMethodError: Exception := Exception(Argument, "Method value null", "", None)

  /** What reflection says about the `MethodInfo` handed to `CallService`. */
  datatype MethodInfo = MethodInfo(name: string, recurring: bool, useIResult: bool)

  /** A proxy notification: the event arguments as the proxy's listeners receive them. */
  datatype CallResult = CallResult(methodName: string, outcome: Completion, callParameters: Option<seq<Value>>)

  /** What the JSON text of a stored call gives back (`Method` and `Parameters` are not in it). */
  datatype CallPayload = CallPayload(methodName: string, recurringId: Guid, useGetResult: bool, wifiOnly: bool)

  /** A call rebuilt from a pending message by `RetrievePendingMessages`. */
  datatype PendingCall = PendingCall(
    messageId: int,
    methodName: string,
    recurringId: Guid,
    useGetResult: bool,
    wifiOnly: bool,
    parameters: Option<seq<Value>>)

  // ---------------------------------------------------------------------
  // Util.GetTypes
  // ---------------------------------------------------------------------

  /** The type `GetTypes` reports for one argument: `Object` for `null`. */
  function TypeOf(v: Value): string {
    match v
    case Null => ObjectTypeName
    case Object(typeName, _) => typeName
  }

  /** `Util.GetTypes`: an empty array for a null array, else one runtime type per argument. */
  method GetTypes(items: Option<seq<Value>>) returns (types: array<string>)
    ensures items.None? ==> types.Length == 0
    ensures items.Some? ==> types.Length == |items.value|
    ensures items.Some? ==> forall i :: 0 <= i < types.Length ==>
              types[i] == (if items.value[i] == Null then ObjectTypeName else items.value[i].typeName)
  {
    if items.None? {
      types := new string[0];
      return;
    }
    var xs := items.value;
    types := new string[|xs|];
    for index := 0 to |xs|
      invariant forall i :: 0 <= i < index ==> types[i] == TypeOf(xs[i])
    {
      types[index] := TypeOf(xs[index]);
    }
  }

  // ---------------------------------------------------------------------
  // Building and storing a call
  // ---------------------------------------------------------------------

  /**
   * The `RecurringMessageId` of a new call: Guid.Empty unless the method
   * carries `RecurringAttribute`; then the caller's id, or a new one when
   * the caller passed Guid.Empty.
   */
  function RecurringIdFor(info: MethodInfo, recurringId: Guid, newGuid: Guid): (id: Guid)
    requires newGuid != EmptyGuid
    ensures id == EmptyGuid <==> !info.recurring
    ensures info.recurring && recurringId != EmptyGuid ==> id == recurringId
    ensures info.recurring && recurringId == EmptyGuid ==> id == newGuid
  {
    if !info.recurring then EmptyGuid
    else if recurringId == EmptyGuid then newGuid
    else recurringId
  }

  /** The parameter slot `Create` writes for the argument at `index`: `null` for a `null` argument. */
  function Slot(index: int, v: Value): Option<MessageParameter> {
    match v
    case Null => None
    case Object(typeName, json) => Some(MessageParameter(index + 1, 0, typeName, json))
  }

  /** The slots `Create` writes for an argument array (none for a `null` array). */
  function Slots(parameters: Option<seq<Value>>): (r: seq<Option<MessageParameter>>)
    ensures parameters.None? ==> r == []
    ensures parameters.Some? ==> |r| == |parameters.value|
    ensures parameters.Some? ==> forall i :: 0 <= i < |r| ==>
              (r[i].None? <==> parameters.value[i] == Null) &&
              (r[i].Some? ==> r[i].value.sequence == i + 1 &&
                              r[i].value.typeName == parameters.value[i].typeName &&
                              r[i].value.text == parameters.value[i].json)
  {
    match parameters
    case None => []
    case Some(xs) => seq(|xs|, i requires 0 <= i < |xs| => Slot(i, xs[i]))
  }

  /** The message `Create` stores for a call whose JSON text is `payload`. */
  function CallMessage(parameters: Option<seq<Value>>, wifiOnly: bool, recurringId: Guid, payload: string): (m: Message)
    ensures m.id == 0 && m.retries == 0 && m.status == Incomplete
    ensures m.typeName == ServiceCallTypeName && m.text == payload
    ensures m.wifiOnly == wifiOnly && m.recurringId == recurringId
    ensures m.parameters == Slots(parameters)
  {
    NewMessage().(typeName := ServiceCallTypeName, text := payload, wifiOnly := wifiOnly,
                  recurringId := recurringId, parameters := Slots(parameters))
  }

  /** The message-building part of `Create`: one slot per argument, filled in a loop. */
  method BuildMessage(parameters: Option<seq<Value>>, wifiOnly: bool, recurringId: Guid, payload: string)
    returns (message: Message)
    ensures message == CallMessage(parameters, wifiOnly, recurringId, payload)
  {
    message := NewMessage().(typeName := ServiceCallTypeName, text := payload, wifiOnly := wifiOnly,
                             recurringId := recurringId);
    if parameters.Some? {
      var xs := parameters.value;
      for index := 0 to |xs|
        invariant message == CallMessage(Some(xs[..index]), wifiOnly, recurringId, payload)
      {
        var parameter: Option<MessageParameter> := None;
        if xs[index] != Null {
          parameter := Some(MessageParameter(index + 1, 0, xs[index].typeName, xs[index].json));
        }
        message := message.(parameters := message.parameters + [parameter]);
        assert message.parameters == Slots(Some(xs[..index + 1]));
      }
      assert xs[..|xs|] == xs;
    }
  }

  // ---------------------------------------------------------------------
  // The state transitions of one invocation
  // ---------------------------------------------------------------------

  /** Before invoking: `IncrementRetry` then `MarkMessage(Transmitting)` on the call's row. */
  function PreInvoke(t: Table, id: int): (r: Table)
    ensures r.Keys == t.Keys
    ensures forall k :: k in t && k != id ==> r[k] == t[k]
    ensures id in t ==> r[id] == t[id].(retries := t[id].retries + 1, status := Transmitting)
  {
    if id in t then t[id := t[id].(retries := t[id].retries + 1, status := Transmitting)] else t
  }

  /** The non-recurring completion switch of `sc_CallCompleteEventHandler`. */
  function StatusAfter(status: ServiceProxyCallStatus): MessageStatus {
    match status
    case CompletedSuccessfully => Sent
    case CompletedWithError => Failed
    case FailedToSend => Incomplete
    case NotDestinedForTarget => Incomplete
  }

  /**
   * After the invocation: a recurring call's row is reset whatever the
   * outcome; otherwise success deletes the row, a service refusal marks it
   * Failed, and anything else puts it back to Incomplete.
   */
  function Completed(t: Table, id: int, recurring: bool, status: ServiceProxyCallStatus, now: int): (r: Table)
    ensures forall k :: k in t && k != id ==> k in r && r[k] == t[k]
    ensures id !in t ==> r == t
    ensures id in t && recurring ==> r == t[id := t[id].(status := Incomplete, sentTm := None)]
    ensures id in t && !recurring && status == CompletedSuccessfully ==> id !in r
    ensures id in t && !recurring && status == CompletedWithError ==>
              r == t[id := t[id].(status := Failed, sentTm := Some(now))]
    ensures id in t && !recurring && (status == FailedToSend || status == NotDestinedForTarget) ==>
              r == t[id := t[id].(status := Incomplete)]
  {
    if recurring then Reset(t, id) else Marked(t, id, StatusAfter(status), now)
  }

  /**
   * The whole private `CallService(ServiceCall)` with its completion
   * handler: nothing changes unless the method resolves (given, or found
   * by name on a non-null target); then the pre-invoke update, the
   * invocation and the completion update.
   */
  function AfterCall(t: Table, connected: bool, id: int, recurring: bool, hasMethod: bool, hasTarget: bool,
                     useGetResult: bool, rt: Runtime, now: int): Table
  {
    if !connected || !(hasMethod || (hasTarget && rt.lookup.Found?)) then t
    else Completed(PreInvoke(t, id), id, recurring, Classify(hasMethod, hasTarget, useGetResult, rt).status, now)
  }

  /** The notification the proxy raises for a completion: none for FailedToSend or without listeners. */
  function RaisedFor(listening: bool, methodName: string, parameters: Option<seq<Value>>, c: Completion): seq<CallResult> {
    if c.status != FailedToSend && listening then [CallResult(methodName, c, parameters)] else []
  }

  /**
   * One invocation's effect on a row that holds no SentTm: the row stays
   * pending (with one more retry) exactly when the call is recurring or the
   * invocation failed to reach the service; otherwise it leaves the pending
   * set.
   */
  lemma RetryPolicy(t: Table, id: int, recurring: bool, status: ServiceProxyCallStatus, now: int)
    requires id in t && t[id].sentTm.None?
    ensures var r := Completed(PreInvoke(t, id), id, recurring, status, now);
            (id in r && IsPending(r[id], "")) <==>
            recurring || status == FailedToSend || status == NotDestinedForTarget
    ensures var r := Completed(PreInvoke(t, id), id, recurring, status, now);
            id in r ==> r[id].retries == t[id].retries + 1
  {
  }

  /** A row that is not in the table is not touched by either half of an invocation. */
  lemma AbsentRowUntouched(t: Table, id: int, recurring: bool, status: ServiceProxyCallStatus, now: int)
    requires id !in t
    ensures Completed(PreInvoke(t, id), id, recurring, status, now) == t
  {
  }

  // ---------------------------------------------------------------------
  // Replaying pending calls
  // ---------------------------------------------------------------------

  /** The `SendPendingMessages` filter. */
  predicate Replayable(c: PendingCall, forceSend: bool) {
    !c.wifiOnly || WifiConnected || forceSend
  }

  /** The pending calls that pass the filter, in their order. */
  function Filtered(cs: seq<PendingCall>, forceSend: bool): (r: seq<PendingCall>)
    ensures |r| <= |cs|
  {
    if |cs| == 0 then []
    else Filtered(cs[..|cs| - 1], forceSend) +
         (if Replayable(cs[|cs| - 1], forceSend) then [cs[|cs| - 1]] else [])
  }

  lemma {:induction false} FilteredAppend(a: seq<PendingCall>, b: seq<PendingCall>, forceSend: bool)
    ensures Filtered(a + b, forceSend) == Filtered(a, forceSend) + Filtered(b, forceSend)
    decreases |b|
  {
    if |b| == 0 {
      assert a + b == a;
    } else {
      var init := b[..|b| - 1];
      assert (a + b)[..|a + b| - 1] == a + init;
      FilteredAppend(a, init, forceSend);
    }
  }

  /** Filtering one more element of `cs`. */
  lemma FilteredStep(cs: seq<PendingCall>, k: int, forceSend: bool)
    requires 0 <= k < |cs|
    ensures Filtered(cs[..k + 1], forceSend) ==
            Filtered(cs[..k], forceSend) + (if Replayable(cs[k], forceSend) then [cs[k]] else [])
  {
    assert cs[..k + 1][..k] == cs[..k];
  }

  /** A replayable call at `k` makes the calls filtered before it a strict prefix of the whole filtered run. */
  lemma CancelledPrefix(cs: seq<PendingCall>, k: int, forceSend: bool)
    requires 0 <= k < |cs| && Replayable(cs[k], forceSend)
    ensures Filtered(cs[..k], forceSend) <= Filtered(cs, forceSend)
    ensures |Filtered(cs[..k], forceSend)| < |Filtered(cs, forceSend)|
  {
    FilteredStep(cs, k, forceSend);
    FilteredAppend(cs[..k + 1], cs[k + 1..], forceSend);
    assert cs[..k + 1] + cs[k + 1..] == cs;
  }

  /** Because `WifiConnected` is hard-wired to true, no pending call is ever held back for WiFi. */
  lemma {:induction false} FilterKeepsAll(cs: seq<PendingCall>, forceSend: bool)
    ensures Filtered(cs, forceSend) == cs
    decreases |cs|
  {
    if |cs| > 0 {
      FilterKeepsAll(cs[..|cs| - 1], forceSend);
      assert cs[..|cs| - 1] + [cs[|cs| - 1]] == cs;
    }
  }

  /**
   * Replaying one call: a missing service makes `ProxiedService.GetType()`
   * throw, and so may the lookup; both are caught and skip the call.
   * Otherwise the call is re-targeted at the service with the method found
   * (or `null`) and handed to the private `CallService`.
   */
  function ReplayOne(t: Table, connected: bool, hasService: bool, c: PendingCall, rt: Runtime, now: int): Table {
    if !hasService || rt.lookup.LookupThrew? then t
    else AfterCall(t, connected, c.messageId, c.recurringId != EmptyGuid, rt.lookup.Found?, true,
                   c.useGetResult, rt, now)
  }

  /** The notifications replaying one call raises. */
  function ReplayRaised(listening: bool, hasService: bool, c: PendingCall, rt: Runtime): seq<CallResult> {
    if !hasService || !rt.lookup.Found? then []
    else RaisedFor(listening, c.methodName, c.parameters, Classify(true, true, c.useGetResult, rt))
  }

  /** Replaying `cs` in order. */
  function Replay(t: Table, connected: bool, hasService: bool, cs: seq<PendingCall>, env: int -> Runtime, now: int): Table {
    if |cs| == 0 then t
    else ReplayOne(Replay(t, connected, hasService, cs[..|cs| - 1], env, now), connected, hasService,
                   cs[|cs| - 1], env(cs[|cs| - 1].messageId), now)
  }

  function ReplayEvents(listening: bool, hasService: bool, cs: seq<PendingCall>, env: int -> Runtime): seq<CallResult> {
    if |cs| == 0 then []
    else ReplayEvents(listening, hasService, cs[..|cs| - 1], env) +
         ReplayRaised(listening, hasService, cs[|cs| - 1], env(cs[|cs| - 1].messageId))
  }

  /** Replaying one more call extends the replay by that call's effect. */
  lemma ReplayStep(t: Table, connected: bool, hasService: bool, listening: bool, cs: seq<PendingCall>,
                   c: PendingCall, env: int -> Runtime, now: int)
    ensures Replay(t, connected, hasService, cs + [c], env, now) ==
            ReplayOne(Replay(t, connected, hasService, cs, env, now), connected, hasService, c, env(c.messageId), now)
    ensures ReplayEvents(listening, hasService, cs + [c], env) ==
            ReplayEvents(listening, hasService, cs, env) + ReplayRaised(listening, hasService, c, env(c.messageId))
  {
    assert (cs + [c])[..|cs|] == cs;
  }

  /** A replay leaves every row that none of the replayed calls names as it was. */
  lemma {:induction false} ReplayFrame(t: Table, connected: bool, hasService: bool, cs: seq<PendingCall>,
                                       env: int -> Runtime, now: int, id: int)
    requires id in t
    requires forall i :: 0 <= i < |cs| ==> cs[i].messageId != id
    ensures var r := Replay(t, connected, hasService, cs, env, now);
            id in r && r[id] == t[id]
    decreases |cs|
  {
    if |cs| > 0 {
      ReplayFrame(t, connected, hasService, cs[..|cs| - 1], env, now, id);
    }
  }

  /** `Parameters` rebuilt from stored parameter rows: `None` when one of them cannot be read back. */
  predicate Decodes(p: Option<MessageParameter>, decodeArg: (string, string) -> Option<Value>) {
    p.Some? && decodeArg(p.value.typeName, p.value.text).Some?
  }

  function DecodedArgs(ps: seq<Option<MessageParameter>>, decodeArg: (string, string) -> Option<Value>): Option<seq<Value>> {
    if forall i :: 0 <= i < |ps| ==> Decodes(ps[i], decodeArg)
    then Some(seq(|ps|, i requires 0 <= i < |ps| && Decodes(ps[i], decodeArg) =>
                             decodeArg(ps[i].value.typeName, ps[i].value.text).value))
    else None
  }

  /**
   * Rebuild one pending message as a call: the JSON text gives its
   * attributes, the stored parameters its arguments (`null` when it has
   * none). A payload or argument that cannot be read back throws.
   */
  function Revive(m: Message, ps: seq<Option<MessageParameter>>, decodeCall: string -> Option<CallPayload>,
                  decodeArg: (string, string) -> Option<Value>): Option<PendingCall>
  {
    match decodeCall(m.text)
    case None => None
    case Some(p) =>
      if |ps| == 0 then Some(PendingCall(m.id, p.methodName, p.recurringId, p.useGetResult, p.wifiOnly, None))
      else match DecodedArgs(ps, decodeArg)
        case None => None
        case Some(args) => Some(PendingCall(m.id, p.methodName, p.recurringId, p.useGetResult, p.wifiOnly, Some(args)))
  }

  /** What `GetMessageParameters` reads for a row. */
  function ArgsOf(t: Table, id: int): seq<Option<MessageParameter>> {
    if id in t then FromDbList(t[id].parameters) else []
  }

  /**
   * `list` is what `GetPendingMessages(null)` reads from `t`: every pending
   * row, oldest first, each read back as the message stored in it.
   */
  ghost predicate StoredPending(t: Table, list: seq<Message>) {
    PendingOrder(t, "", IdsOf(list)) &&
    forall i :: 0 <= i < |list| ==> list[i].id in t && list[i] == MessageOf(t[list[i].id])
  }

  /**
   * `RetrievePendingMessages`: the pending messages rebuilt in order; the
   * first one that cannot be rebuilt throws out of the loop, and the calls
   * rebuilt before it are returned.
   */
  function Revived(ms: seq<Message>, t: Table, decodeCall: string -> Option<CallPayload>,
                   decodeArg: (string, string) -> Option<Value>): (r: seq<PendingCall>)
    ensures |r| <= |ms|
    ensures forall i :: 0 <= i < |r| ==> r[i].messageId == ms[i].id
    ensures (forall i :: 0 <= i < |ms| ==> Revive(ms[i], ArgsOf(t, ms[i].id), decodeCall, decodeArg).Some?) ==> |r| == |ms|
  {
    if |ms| == 0 then []
    else match Revive(ms[0], ArgsOf(t, ms[0].id), decodeCall, decodeArg)
      case None => []
      case Some(c) =>
        assert forall i :: 1 <= i < |ms| ==> ms[1..][i - 1] == ms[i];
        [c] + Revived(ms[1..], t, decodeCall, decodeArg)
  }

  /** `Revived` from position `i`: the message there is rebuilt first, or the rest is dropped. */
  lemma RevivedCons(ms: seq<Message>, i: int, t: Table, decodeCall: string -> Option<CallPayload>,
                    decodeArg: (string, string) -> Option<Value>)
    requires 0 <= i < |ms|
    ensures var c := Revive(ms[i], ArgsOf(t, ms[i].id), decodeCall, decodeArg);
            Revived(ms[i..], t, decodeCall, decodeArg)
              == if c.None? then [] else [c.value] + Revived(ms[i + 1..], t, decodeCall, decodeArg)
  {
    assert ms[i..][0] == ms[i] && ms[i..][1..] == ms[i + 1..];
  }

  // ---------------------------------------------------------------------
  // The worker's wait loop
  // ---------------------------------------------------------------------

  /** The number of 5000 ms waits that count `ms` down to zero or below. */
  function WaitSteps(ms: int): nat
    decreases ms
  {
    if ms <= 0 then 0 else 1 + WaitSteps(ms - PollStep)
  }

  /** The wait loop sleeps ceil(ms / 5000) times: enough to cover `ms`, one step fewer would not. */
  lemma {:induction false} WaitStepsCover(ms: int)
    ensures ms <= 0 ==> WaitSteps(ms) == 0
    ensures ms > 0 ==> PollStep * (WaitSteps(ms) - 1) < ms <= PollStep * WaitSteps(ms)
    decreases ms
  {
    if ms > 0 {
      WaitStepsCover(ms - PollStep);
    }
  }

  /**
   * The wait loop of `WorkerProcAsync`: count `timeToWait` down from the
   * retry interval in 5000 ms sleeps until it reaches zero or the token
   * reads as cancelled, which it does after `cancelAt` completed sleeps.
   */
  method WaitLoop(retryMs: int, cancelAt: nat) returns (waits: nat)
    ensures waits == if cancelAt < WaitSteps(retryMs) then cancelAt else WaitSteps(retryMs)
  {
    var timeToWait := retryMs;
    waits := 0;
    while timeToWait > 0
      invariant waits + WaitSteps(timeToWait) == WaitSteps(retryMs)
      invariant waits <= cancelAt
      decreases timeToWait
    {
      if waits == cancelAt {
        break;
      }
      waits := waits + 1;
      timeToWait := timeToWait - PollStep;
    }
  }

  // ---------------------------------------------------------------------
  // The proxy
  // ---------------------------------------------------------------------

  /** `CancellationTokenSource`, reduced to its cancellation flag. */
  class CancellationTokenSource {
    var cancelled: bool

    constructor ()
      ensures !cancelled
    {
      cancelled := false;
    }

    method Cancel()
      modifies this
      ensures cancelled
    {
      cancelled := true;
    }
  }

  class ServiceProxy {
    /** `Messages.Instance`. */
    const store: Messages
    /** `CreateService` is set and yields a non-null service. */
    var hasService: bool
    /** `CallCompleteEventHandler` has a subscriber. */
    var listening: bool
    /** The notifications raised on `CallCompleteEventHandler` so far. */
    var raised: seq<CallResult>
    var workerToken: CancellationTokenSource?
    var workerRunning: bool
    var disposed: bool

    /** The store is consistent, and the token the proxy holds has not been cancelled yet. */
    ghost predicate Valid()
      reads this, store, workerToken
    {
      store.Valid() && (workerToken != null ==> !workerToken.cancelled)
    }

    constructor (store: Messages, hasService: bool, listening: bool)
      requires store.Valid()
      ensures Valid()
      ensures this.store == store && this.hasService == hasService && this.listening == listening
      ensures raised == [] && workerToken == null && !workerRunning && !disposed
    {
      this.store := store;
      this.hasService := hasService;
      this.listening := listening;
      raised := [];
      workerToken := null;
      workerRunning := false;
      disposed := false;
    }

    /**
     * `CallService(MethodInfo, …)`: a null method throws ArgumentException;
     * otherwise the call is stored through `Create` and its recurring id
     * returned.
     */
    method CallService(info: Option<MethodInfo>, wifiOnly: bool, recurringId: Guid,
                       parameters: Option<seq<Value>>, newGuid: Guid, payload: string, now: int)
      returns (r: Result<Guid, Exception>)
      requires Valid() && newGuid != EmptyGuid
      modifies store`table, store`nextId, store`nextParamId
      ensures Valid()
      ensures info.None? ==> r == Failure(NullMethodError) && store.table == old(store.table)
      ensures info.Some? ==> r == Success(RecurringIdFor(info.value, recurringId, newGuid))
      ensures info.Some? ==>
        var m := CallMessage(parameters, wifiOnly, RecurringIdFor(info.value, recurringId, newGuid), payload);
        store.table == if store.connected then Appended(old(store.table), m, old(store.nextId), old(store.nextParamId), now)
                       else old(store.table)
    {
      if info.None? {
        return Failure(NullMethodError);
      }
      var mi := info.value;
      var sc := new ServiceCall(hasService, mi.name, true, RecurringIdFor(mi, recurringId, newGuid),
                                mi.useIResult, parameters, 0, wifiOnly);
      Create(sc, payload, now);
      r := Success(sc.recurringMessageId);
    }

    /**
     * `Create`: store the call as a new Incomplete message and record the
     * new message id in the call (0 when the store is not connected).
     */
    method Create(call: ServiceCall, payload: string, now: int)
      requires Valid()
      modifies store`table, store`nextId, store`nextParamId, call`messageId
      ensures Valid()
      ensures var m := CallMessage(call.parameters, call.wifiOnly, call.recurringMessageId, payload);
              store.table == if store.connected then Appended(old(store.table), m, old(store.nextId), old(store.nextParamId), now)
                             else old(store.table)
      ensures call.messageId == if store.connected then old(store.nextId) else 0
    {
      var message := BuildMessage(call.parameters, call.wifiOnly, call.recurringMessageId, payload);
      var updated := store.AddNewMessage(Some(message), true, now);
      call.messageId := updated.value.id;
    }

    /**
     * The private `CallService(ServiceCall)`: resolve the method; if it
     * resolves, increment the retries, mark the row Transmitting, subscribe
     * the completion handler and invoke.
     */
    method CallServiceCall(call: ServiceCall, rt: Runtime, now: int)
      requires Valid()
      modifies store`table, this`raised, call`listening
      ensures Valid()
      ensures store.table == AfterCall(old(store.table), store.connected, call.messageId, call.recurringMessageId != EmptyGuid,
                                       call.hasMethod, call.hasTarget, call.useGetResult, rt, now)
      ensures raised == old(raised) +
        if call.hasMethod || (call.hasTarget && rt.lookup.Found?)
        then RaisedFor(listening, call.methodName, call.parameters,
                       Classify(call.hasMethod, call.hasTarget, call.useGetResult, rt))
        else []
    {
      if !call.hasMethod && !(call.hasTarget && rt.lookup.Found?) {
        // a null target throws, a failed lookup throws or is ignored: all caught
        return;
      }
      MarkTransmitting(call.messageId, now);
      call.listening := true;
      var _, args, notified := call.InvokeServiceMethodAsync(rt);
      if notified {
        CallComplete(call, args, now);
      }
    }

    /** The pre-invoke half of the private `CallService`: `IncrementRetry`, then `MarkMessage(Transmitting)`. */
    method MarkTransmitting(messageId: int, now: int)
      requires Valid()
      modifies store`table
      ensures Valid()
      ensures store.table == if store.connected then PreInvoke(old(store.table), messageId) else old(store.table)
    {
      var message := store.GetMessage(messageId, true);
      assert store.connected && messageId in store.table ==> message.id == messageId;
      assert 0 !in store.table;
      var _ := store.IncrementRetry(Some(message), true);
      store.MarkMessage(Some(message), Transmitting, true, now);
    }

    /**
     * `sc_CallCompleteEventHandler`: unsubscribe, attach the call's
     * arguments, notify the proxy's listeners unless the call failed to
     * send, then move the message to its next state. (The source's guard
     * against a `null` sender cannot fire: a call always passes itself.)
     */
    method CallComplete(src: ServiceCall, args: ServiceProxyEventArgs, now: int)
      requires Valid()
      modifies store`table, this`raised, src`listening, args`callParameters
      ensures Valid()
      ensures !src.listening && args.callParameters == src.parameters
      ensures raised == old(raised) + RaisedFor(listening, args.methodName, src.parameters, args.Outcome())
      ensures store.table == if store.connected
                             then Completed(old(store.table), src.messageId, src.recurringMessageId != EmptyGuid, args.status, now)
                             else old(store.table)
    {
      src.listening := false;
      args.callParameters := src.parameters;
      if args.status != FailedToSend && listening {
        raised := raised + [CallResult(args.methodName, args.Outcome(), args.callParameters)];
      }
      SettleMessage(src.messageId, src.recurringMessageId != EmptyGuid, args.status, now);
    }

    /**
     * The row update at the end of the completion handler: read the
     * message back, then reset a recurring call or mark a one-off call by
     * its outcome.
     */
    method SettleMessage(messageId: int, recurring: bool, status: ServiceProxyCallStatus, now: int)
      requires Valid()
      modifies store`table
      ensures Valid()
      ensures store.table == if store.connected
                             then Completed(old(store.table), messageId, recurring, status, now)
                             else old(store.table)
    {
      var message := store.GetMessage(messageId, true);
      assert store.connected && messageId in store.table ==> message.id == messageId;
      assert 0 !in store.table;
      if recurring {
        var _ := store.ResetMessage(message.id, true);
      } else {
        store.MarkMessage(Some(message), StatusAfter(status), true, now);
      }
    }

    /**
     * `RetrievePendingMessages`: every pending message, oldest first,
     * rebuilt as a call; a message that cannot be rebuilt ends the
     * retrieval with the calls rebuilt so far.
     */
    method RetrievePendingMessages(decodeCall: string -> Option<CallPayload>,
                                   decodeArg: (string, string) -> Option<Value>)
      returns (calls: seq<PendingCall>, ghost pending: seq<Message>)
      requires Valid()
      ensures store.connected ==> StoredPending(store.table, pending)
      ensures !store.connected ==> pending == []
      ensures calls == Revived(pending, store.table, decodeCall, decodeArg)
    {
      var list := store.GetPendingMessages(None, true);
      pending := list;
      calls := ReviveAll(list, decodeCall, decodeArg);
    }

    /** The loop of `RetrievePendingMessages` over the pending messages. */
    method ReviveAll(list: seq<Message>, decodeCall: string -> Option<CallPayload>,
                     decodeArg: (string, string) -> Option<Value>)
      returns (calls: seq<PendingCall>)
      requires store.connected || list == []
      ensures calls == Revived(list, store.table, decodeCall, decodeArg)
    {
      calls := [];
      var i := 0;
      while i < |list|
        invariant 0 <= i <= |list|
        invariant calls + Revived(list[i..], store.table, decodeCall, decodeArg) == Revived(list, store.table, decodeCall, decodeArg)
      {
        var c := ReviveMessage(list[i], decodeCall, decodeArg);
        RevivedCons(list, i, store.table, decodeCall, decodeArg);
        if c.None? {
          return;
        }
        ghost var rest := Revived(list[i + 1..], store.table, decodeCall, decodeArg);
        Strings.JoinAssoc(calls, [c.value], rest);
        calls := calls + [c.value];
        i := i + 1;
      }
    }

    /** The body of that loop: rebuild one pending message. */
    method ReviveMessage(m: Message, decodeCall: string -> Option<CallPayload>,
                         decodeArg: (string, string) -> Option<Value>)
      returns (c: Option<PendingCall>)
      requires store.connected
      ensures c == Revive(m, ArgsOf(store.table, m.id), decodeCall, decodeArg)
    {
      var sc := decodeCall(m.text);
      if sc.None? {
        return None;
      }
      var parms := store.GetMessageParameters(m.id, true);
      var args: Option<seq<Value>> := None;
      if |parms| > 0 {
        args := DecodeArguments(parms, decodeArg);
        if args.None? {
          return None;
        }
      }
      var p := sc.value;
      c := Some(PendingCall(m.id, p.methodName, p.recurringId, p.useGetResult, p.wifiOnly, args));
    }

    /** The argument loop of `RetrievePendingMessages`, filling a fresh array. */
    static method DecodeArguments(ps: seq<Option<MessageParameter>>, decodeArg: (string, string) -> Option<Value>)
      returns (args: Option<seq<Value>>)
      ensures args == DecodedArgs(ps, decodeArg)
    {
      var values := new Value[|ps|](_ => Null);
      for i := 0 to |ps|
        invariant forall j :: 0 <= j < i ==>
          Decodes(ps[j], decodeArg) && values[j] == decodeArg(ps[j].value.typeName, ps[j].value.text).value
      {
        if ps[i].None? || decodeArg(ps[i].value.typeName, ps[i].value.text).None? {
          assert !Decodes(ps[i], decodeArg);
          return None;
        }
        values[i] := decodeArg(ps[i].value.typeName, ps[i].value.text).value;
      }
      assert forall j :: 0 <= j < |ps| ==> Decodes(ps[j], decodeArg);
      assert values[..] == DecodedArgs(ps, decodeArg).value;
      args := Some(values[..]);
    }

    /**
     * Replay one pending call inside the `SendPendingMessages` loop: target
     * the proxied service, look the method up by name, and call it.
     */
    method ReplayCall(c: PendingCall, rt: Runtime, now: int)
      requires Valid()
      modifies store`table, this`raised
      ensures Valid()
      ensures store.table == ReplayOne(old(store.table), store.connected, hasService, c, rt, now)
      ensures raised == old(raised) + ReplayRaised(listening, hasService, c, rt)
    {
      if !hasService || rt.lookup.LookupThrew? {
        return;
      }
      var call := new ServiceCall(true, c.methodName, rt.lookup.Found?, c.recurringId, c.useGetResult,
                                  c.parameters, c.messageId, c.wifiOnly);
      CallServiceCall(call, rt, now);
    }

    /**
     * `SendPendingMessages`: replay every pending call that passes the
     * filter, in pending order. When the token reads as cancelled (before
     * the `cancelAt`-th replay) the loop throws OperationCanceledException.
     */
    method SendPendingMessages(forceSend: bool, cancelAt: nat, env: int -> Runtime,
                               decodeCall: string -> Option<CallPayload>,
                               decodeArg: (string, string) -> Option<Value>, now: int)
      returns (cancelled: bool, ghost pending: seq<Message>, ghost calls: seq<PendingCall>,
               ghost replayed: seq<PendingCall>)
      requires Valid()
      modifies store`table, this`raised
      ensures Valid()
      ensures store.connected ==> StoredPending(old(store.table), pending)
      ensures !store.connected ==> pending == []
      ensures calls == Revived(pending, old(store.table), decodeCall, decodeArg)
      ensures replayed <= Filtered(calls, forceSend)
      ensures cancelled <==> cancelAt < |Filtered(calls, forceSend)|
      ensures cancelled ==> |replayed| == cancelAt
      ensures !cancelled ==> replayed == Filtered(calls, forceSend)
      ensures store.table == Replay(old(store.table), store.connected, hasService, replayed, env, now)
      ensures raised == old(raised) + ReplayEvents(listening, hasService, replayed, env)
    {
      var list;
      list, pending := RetrievePendingMessages(decodeCall, decodeArg);
      calls := list;
      cancelled, replayed := ReplayAll(list, forceSend, cancelAt, env, now);
    }

    /** One pass of that `foreach`: replaying one more call extends the replay so far by it. */
    method ReplayNext(c: PendingCall, env: int -> Runtime, now: int,
                      ghost t0: Table, ghost r0: seq<CallResult>, ghost replayed: seq<PendingCall>)
      requires Valid()
      requires store.table == Replay(t0, store.connected, hasService, replayed, env, now)
      requires raised == r0 + ReplayEvents(listening, hasService, replayed, env)
      modifies store`table, this`raised
      ensures Valid()
      ensures store.table == Replay(t0, store.connected, hasService, replayed + [c], env, now)
      ensures raised == r0 + ReplayEvents(listening, hasService, replayed + [c], env)
    {
      ReplayCall(c, env(c.messageId), now);
      ReplayStep(t0, store.connected, hasService, listening, replayed, c, env, now);
    }

    /** The `foreach` of `SendPendingMessages` over the filtered calls. */
    method ReplayAll(list: seq<PendingCall>, forceSend: bool, cancelAt: nat, env: int -> Runtime, now: int)
      returns (cancelled: bool, ghost replayed: seq<PendingCall>)
      requires Valid()
      modifies store`table, this`raised
      ensures Valid()
      ensures replayed <= Filtered(list, forceSend)
      ensures cancelled <==> cancelAt < |Filtered(list, forceSend)|
      ensures cancelled ==> |replayed| == cancelAt
      ensures !cancelled ==> replayed == Filtered(list, forceSend)
      ensures store.table == Replay(old(store.table), store.connected, hasService, replayed, env, now)
      ensures raised == old(raised) + ReplayEvents(listening, hasService, replayed, env)
    {
      ghost var t0 := store.table;
      ghost var r0 := raised;
      cancelled := false;
      replayed := [];
      var calls := Filtered(list, forceSend);
      var k := 0;
      while k < |calls|
        invariant 0 <= k <= |calls| && k <= cancelAt
        invariant replayed == calls[..k]
        invariant Valid()
        invariant store.table == Replay(t0, store.connected, hasService, replayed, env, now)
        invariant raised == r0 + ReplayEvents(listening, hasService, replayed, env)
      {
        if k == cancelAt {
          cancelled := true;
          return;
        }
        var c := calls[k];
        ReplayNext(c, env, now, t0, r0, replayed);
        assert calls[..k + 1] == calls[..k] + [c];
        replayed := replayed + [c];
        k := k + 1;
      }
      assert calls[..k] == calls;
    }

    /**
     * `StartWorker`: when no worker is running, take a fresh token and
     * start the worker. Always reports success.
     */
    method StartWorker() returns (started: bool)
      requires Valid()
      modifies this`workerToken, this`workerRunning
      ensures Valid()
      ensures started && workerRunning
      ensures old(workerRunning) ==> workerToken == old(workerToken)
      ensures !old(workerRunning) ==> workerToken != null && fresh(workerToken)
    {
      if !workerRunning {
        workerToken := new CancellationTokenSource();
        workerRunning := true;
      }
      started := true;
    }

    /** `StopWorker`: cancel the held token, if any, and let go of it. */
    method StopWorker()
      requires Valid()
      modifies this`workerToken, workerToken
      ensures Valid()
      ensures workerToken == null
      ensures old(workerToken) != null ==> old(workerToken).cancelled
    {
      if workerToken == null {
        return;
      }
      workerToken.Cancel();
      workerToken := null;
    }

    /**
     * One round of the `WorkerProcAsync` loop: stop if the token is already
     * cancelled, replay the pending calls (a cancellation during the replay
     * also stops the worker), then convert the retry interval to an `int`
     * (an interval outside its range throws outside the `try` and ends the
     * worker) and wait it out.
     */
    method WorkerRound(cancelledAtStart: bool, sendCancelAt: nat, waitCancelAt: nat, retryMs: int,
                       env: int -> Runtime, decodeCall: string -> Option<CallPayload>,
                       decodeArg: (string, string) -> Option<Value>, now: int)
      returns (stopped: bool, waits: nat, ghost pending: seq<Message>, ghost calls: seq<PendingCall>,
               ghost replayed: seq<PendingCall>)
      requires Valid()
      modifies store`table, this`raised, this`workerRunning
      ensures Valid()
      ensures stopped <==> !workerRunning
      ensures stopped ==> waits == 0
      ensures cancelledAtStart ==> pending == [] && replayed == []
      ensures !cancelledAtStart && store.connected ==> StoredPending(old(store.table), pending)
      ensures !store.connected ==> pending == []
      ensures calls == Revived(pending, old(store.table), decodeCall, decodeArg)
      ensures replayed <= Filtered(calls, false)
      ensures stopped <==> cancelledAtStart || sendCancelAt < |Filtered(calls, false)| || !FitsInt32(retryMs)
      ensures !cancelledAtStart && sendCancelAt < |Filtered(calls, false)| ==> |replayed| == sendCancelAt
      ensures !cancelledAtStart && sendCancelAt >= |Filtered(calls, false)| ==> replayed == Filtered(calls, false)
      ensures store.table == Replay(old(store.table), store.connected, hasService, replayed, env, now)
      ensures raised == old(raised) + ReplayEvents(listening, hasService, replayed, env)
      ensures !stopped ==> waits == if waitCancelAt < WaitSteps(retryMs) then waitCancelAt else WaitSteps(retryMs)
    {
      if cancelledAtStart {
        workerRunning := false;
        return true, 0, [], [], [];
      }
      stopped, waits, pending, calls, replayed := SendThenWait(sendCancelAt, waitCancelAt, retryMs, env, decodeCall, decodeArg, now);
    }

    /** The body of a `WorkerProcAsync` round once the token has been checked. */
    method SendThenWait(sendCancelAt: nat, waitCancelAt: nat, retryMs: int,
                        env: int -> Runtime, decodeCall: string -> Option<CallPayload>,
                        decodeArg: (string, string) -> Option<Value>, now: int)
      returns (stopped: bool, waits: nat, ghost pending: seq<Message>, ghost calls: seq<PendingCall>,
               ghost replayed: seq<PendingCall>)
      requires Valid()
      modifies store`table, this`raised, this`workerRunning
      ensures Valid()
      ensures stopped <==> !workerRunning
      ensures stopped ==> waits == 0
      ensures store.connected ==> StoredPending(old(store.table), pending)
      ensures !store.connected ==> pending == []
      ensures calls == Revived(pending, old(store.table), decodeCall, decodeArg)
      ensures replayed <= Filtered(calls, false)
      ensures stopped <==> sendCancelAt < |Filtered(calls, false)| || !FitsInt32(retryMs)
      ensures sendCancelAt < |Filtered(calls, false)| ==> |replayed| == sendCancelAt
      ensures sendCancelAt >= |Filtered(calls, false)| ==> replayed == Filtered(calls, false)
      ensures store.table == Replay(old(store.table), store.connected, hasService, replayed, env, now)
      ensures raised == old(raised) + ReplayEvents(listening, hasService, replayed, env)
      ensures !stopped ==> waits == if waitCancelAt < WaitSteps(retryMs) then waitCancelAt else WaitSteps(retryMs)
    {
      waits := 0;
      var cancelled;
      cancelled, pending, calls, replayed := SendPendingMessages(false, sendCancelAt, env, decodeCall, decodeArg, now);
      if cancelled || !FitsInt32(retryMs) {
        workerRunning := false;
        stopped := true;
        return;
      }
      waits := WaitLoop(retryMs, waitCancelAt);
      workerRunning := true;
      stopped := false;
    }

    /** `Dispose`: the first call stops the worker and drops the service factory. */
    method Dispose()
      requires Valid()
      modifies this`workerToken, workerToken, this`hasService, this`disposed
      ensures Valid()
      ensures disposed
      ensures !old(disposed) ==> workerToken == null && !hasService &&
                                 (old(workerToken) != null ==> old(workerToken).cancelled)
      ensures old(disposed) ==> workerToken == old(workerToken) && hasService == old(hasService)
    {
      if !disposed {
        StopWorker();
        hasService := false;
      }
      disposed := true;
    }
  }
}
