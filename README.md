# DroidServiceTest core, modelled in Dafny

This project models the two working parts of DroidServiceTest:

- The **store-and-forward call queue** (`StoreAndForward/`).
  - `ServiceProxy<T>` turns a method call into a persisted `Message`.
  - A background worker replays the pending messages against the proxied service.
  - Each message moves through its states as the invocation completes.
  - The states are Incomplete, Transmitting, then deleted, Failed, or back to Incomplete.
  - `Messages` is the SQLite-backed table of those messages, with their child parameter rows.
  - `ServiceCall` performs one reflective invocation. It classifies the outcome as CompletedSuccessfully, CompletedWithError, FailedToSend or NotDestinedForTarget.
- The **logging engine** (`Logging/`).
  - `LogFactory` reads a configuration of rules and targets. It wires one `LoggerWrapper` per usable rule.
  - It answers `GetLogger(name)` by the rules whose name pattern matches.
  - `LoggerWrapper` and `MultiLogger` gate messages by level.
  - `LogMessage` renders a layout with `${…}` options.
  - `FileLogger` queues messages and appends them to a log file. It archives the file into numbered slots once it grows too large.
- The helpers the core relies on: `ToStringBuilder`, `GenericExtensionMethods`, and the Android `ExternalStorageHelper`.

Each source file is one Dafny module in the file of the same name:

- Values become datatypes.
- Objects whose fields change become classes with `modifies` frames.
- Loops stay loops, with invariants. Each such method is proved against a specification function of its inputs and old state.
- The properties the source promises are lemmas over those functions.
- The database is the map `table` from row id to row, children included.
- The log folder is a map from file name to length.
- Reflection, JSON, clocks and lock time-outs are inputs:
  - what the runtime would answer is the `Runtime` value;
  - JSON text is opaque, and functions given as parameters read it back;
  - `DateTime.Now` is `now`;
  - each `SemaphoreSlim.Wait` outcome inside `Messages` and `FileLogger` is a `lockTaken` flag (the callers in `ServiceProxy` always obtain it, see "## Left out").

Where the code and its comments or design notes disagree, the model follows the code:

- A recurring call's row is reset to Incomplete after every invocation, whatever the outcome, not only after a success. See `ServiceProxies.Completed`.
- `WifiConnected` is hard-wired to `true`, so the WiFi-only flag never holds a call back. See `ServiceProxies.FilterKeepsAll`.
- The comments of the `LoggingRule.Name` setter label the prefix and suffix cases the wrong way round. `"abc*"` is a prefix test and `"*abc"` a suffix test. See `LoggingRules.PrefixPattern` and `LoggingRules.SuffixPattern`.

## Model

| member | source | states |
|---|---|---|
| MessageTypes.NewMessage | DroidServiceTest.Core/StoreAndForward/Model/Message.cs:8-12 | a new message is Incomplete, with id 0, no retries, an empty parameter list and its `null` type and text (written "") |
| DbMessageParameters.ToDb | DroidServiceTest.Core/StoreAndForward/Model/DbMessageParameter.cs:20-31 | null converts to null; the row's Id carries the parameter's Sequence |
| DbMessageParameters.FromDb | DroidServiceTest.Core/StoreAndForward/Model/DbMessageParameter.cs:33-43 | null converts to null; the parameter's Sequence is read back from the row's Id |
| DbMessageParameters.ParameterRoundTrip | DroidServiceTest.Core/StoreAndForward/Model/DbMessageParameter.cs:20-43 | parameter → row → parameter is the identity, null included |
| DbMessageParameters.RowRoundTrip | DroidServiceTest.Core/StoreAndForward/Model/DbMessageParameter.cs:20-43 | row → parameter → row is the identity, null included |
| DbMessages.NewDbMessage | DroidServiceTest.Core/StoreAndForward/Model/DbMessage.cs:11-14 | a new row has an empty, non-null parameter list, a null SentTm and the default CreateTm |
| DbMessages.ToDbList | DroidServiceTest.Core/StoreAndForward/Model/DbMessage.cs:69 | the row list has the same length and converts element by element |
| DbMessages.FromDbList | DroidServiceTest.Core/StoreAndForward/Model/DbMessage.cs:40 | the parameter list has the same length and converts element by element |
| DbMessages.ToMessage | DroidServiceTest.Core/StoreAndForward/Model/DbMessage.cs:36-54 | null converts to null; a row keeps its id and its number of parameters |
| DbMessages.ToDbMessage | DroidServiceTest.Core/StoreAndForward/Model/DbMessage.cs:56-72 | null converts to null; a message keeps its id and its number of parameters |
| DbMessages.ListRoundTrips | DroidServiceTest.Core/StoreAndForward/Model/DbMessage.cs:40-69 | each list conversion undoes the other, element by element |
| DbMessages.MessageRoundTrip | DroidServiceTest.Core/StoreAndForward/Model/DbMessage.cs:36-72 | message → row → message is the identity |
| DbMessages.DbMessageRoundTrip | DroidServiceTest.Core/StoreAndForward/Model/DbMessage.cs:36-72 | row → message → row keeps every column except CreateTm (back to its default) and SentTm (back to null) |
| MessageStore.TypeFilter | DroidServiceTest.Core/StoreAndForward/Model/Messages.cs:317-320 | a null type filter means the empty filter, and any other filter is kept |
| MessageStore.Without | DroidServiceTest.Core/StoreAndForward/Model/Messages.cs:403-425 | exactly the named rows are gone, and every other row is unchanged |
| MessageStore.Appended | DroidServiceTest.Core/StoreAndForward/Model/Messages.cs:91-93 | one new row under the new id, stamped `now` with no SentTm, carrying the message's columns and one child per non-null parameter; other rows unchanged |
| MessageStore.FailedAll | DroidServiceTest.Core/StoreAndForward/Model/Messages.cs:468-472 | marking a set of rows Failed deletes no row |
| MessageStore.Unstuck | DroidServiceTest.Core/StoreAndForward/Model/Messages.cs:587-603 | the stuck-message recovery deletes no row |
| MessageStore.StoredChildren | DroidServiceTest.Core/StoreAndForward/Model/Messages.cs:93 | one child row per non-null parameter, in order, under the message id and consecutive AUTOINCREMENT ids |
| MessageStore.FirstNull | DroidServiceTest.Core/StoreAndForward/Model/Messages.cs:96-100 | the first null parameter slot, where the id copy-back loop stops |
| MessageStore.NonNullPrefix | DroidServiceTest.Core/StoreAndForward/Model/Messages.cs:96-100 | before the first null slot, the k-th stored child is the k-th parameter |
| MessageStore.MarkedNotPending | DroidServiceTest.Core/StoreAndForward/Model/Messages.cs:257-274 | a row marked with any status other than Incomplete is no longer pending |
| MessageStore.FailedAllClearsPending | DroidServiceTest.Core/StoreAndForward/Model/Messages.cs:458-483 | after DeletePendingMessages nothing of that type is pending, and every other row is unchanged |
| MessageStore.RetriesFrame | DroidServiceTest.Core/StoreAndForward/Model/Messages.cs:228-274 | mark, reset, fail-all, recovery and delete keep every surviving row's retry count |
| MessageStore.RetriedSpec | DroidServiceTest.Core/StoreAndForward/Model/Messages.cs:117-142 | IncrementRetry adds exactly one to one row's retries and touches nothing else |
| MessageStore.StartupSpec | DroidServiceTest.Core/StoreAndForward/Model/Messages.cs:63-70 | after start-up, a row survives iff its CreateTm parses and is newer than a day; none is Transmitting; non-Transmitting rows are unchanged |
| MessageStore.PendingOrderEmpty | DroidServiceTest.Core/StoreAndForward/Model/Messages.cs:322-325 | two pending orders of the same table are empty together |
| MessageStore.PendingOrderHead | DroidServiceTest.Core/StoreAndForward/Model/Messages.cs:322-325 | the head of the pending order is the oldest pending row (ties by id) |
| MessageStore.PendingOrderUnique | DroidServiceTest.Core/StoreAndForward/Model/Messages.cs:322-325 | the pending list is fully determined: any two oldest-first enumerations of the pending rows are equal |
| MessageStore.SuffixOrder | DroidServiceTest.Core/StoreAndForward/Model/Messages.cs:322-325 | dropping the oldest pending row leaves a pending order of the rest |
| MessageStore.Least | DroidServiceTest.Core/StoreAndForward/Model/Messages.cs:199 | the lowest id of a non-empty set, the row a `Find` returns first |
| MessageStore.Messages.Create | DroidServiceTest.Core/StoreAndForward/Model/Messages.cs:28-70 | opening the store: connected iff platform and connection; only existing rows can have an unreadable CreateTm; then the invalid purge, the old purge and the stuck recovery |
| MessageStore.Messages.ConfigureFails | DroidServiceTest.Core/StoreAndForward/Model/Messages.cs:608-631 | ConfigureDb throws exactly when a platform service yields no connection |
| MessageStore.Messages.AddNewMessage | DroidServiceTest.Core/StoreAndForward/Model/Messages.cs:76-111 | stores the message under a fresh id, whose CreateTm is readable, with its non-null parameters; copies ids back up to the first null slot; a no-op without connection, message or lock |
| MessageStore.Messages.CopyBackIds | DroidServiceTest.Core/StoreAndForward/Model/Messages.cs:96-100 | every parameter before the first null gets the stored message id and its own row number (first row id plus its position); later parameters are unchanged |
| MessageStore.Messages.IncrementRetry | DroidServiceTest.Core/StoreAndForward/Model/Messages.cs:117-142 | true iff the row exists and the lock was taken; the table is then `Retried`, else unchanged |
| MessageStore.Messages.ResetMessage | DroidServiceTest.Core/StoreAndForward/Model/Messages.cs:149-179 | true iff the row exists; it is then Incomplete with SentTm null |
| MessageStore.Messages.FirstId | DroidServiceTest.Core/StoreAndForward/Model/Messages.cs:199 | the least id of a non-empty set |
| MessageStore.Messages.RemoveRecurringMessage | DroidServiceTest.Core/StoreAndForward/Model/Messages.cs:186-221 | for a non-empty recurring id, deletes the lowest-id row carrying it; true iff one existed |
| MessageStore.Messages.MarkMessage | DroidServiceTest.Core/StoreAndForward/Model/Messages.cs:228-248 | MarkMessageNoLock on a non-null message under the lock, else nothing |
| MessageStore.Messages.MarkMessageNoLock | DroidServiceTest.Core/StoreAndForward/Model/Messages.cs:257-274 | Sent deletes the row; Failed also stamps SentTm; any other status is written alone |
| MessageStore.Messages.GetPendingMessages | DroidServiceTest.Core/StoreAndForward/Model/Messages.cs:282-308 | the pending rows of the filter as messages, oldest CreateTm first (ties by id); empty without connection or lock |
| MessageStore.Messages.GetPendingIdsNoLock | DroidServiceTest.Core/StoreAndForward/Model/Messages.cs:315-328 | lists exactly the pending rows, each once, oldest first |
| MessageStore.Messages.OldestOf | DroidServiceTest.Core/StoreAndForward/Model/Messages.cs:325 | the row that the stable ordering by CreateTm puts first |
| MessageStore.Messages.GetMessage | DroidServiceTest.Core/StoreAndForward/Model/Messages.cs:335-362 | the stored message, or `new Message()` when there is none |
| MessageStore.Messages.GetMessageParameters | DroidServiceTest.Core/StoreAndForward/Model/Messages.cs:369-395 | the stored parameters in order; an absent row gives an empty list |
| MessageStore.Messages.DeleteMessageNoLock | DroidServiceTest.Core/StoreAndForward/Model/Messages.cs:398-425 | deletes the row and its children; true iff the row existed |
| MessageStore.Messages.DeleteMessage | DroidServiceTest.Core/StoreAndForward/Model/Messages.cs:431-452 | deletes a non-null message's row under the lock |
| MessageStore.Messages.DeletePendingMessages | DroidServiceTest.Core/StoreAndForward/Model/Messages.cs:458-483 | marks every pending row of the filter Failed, deleting nothing |
| MessageStore.Messages.DeleteInvalidMessages | DroidServiceTest.Core/StoreAndForward/Model/Messages.cs:488-507 | under the lock, removes the rows whose CreateTm does not parse |
| MessageStore.Messages.DeleteMessagesWithInvalidCreateTimeNoLock | DroidServiceTest.Core/StoreAndForward/Model/Messages.cs:516-533 | removes exactly the rows whose CreateTm does not parse |
| MessageStore.Messages.DeleteAll | DroidServiceTest.Core/StoreAndForward/Model/Messages.cs:528-532 | deleting row by row removes exactly the given rows |
| MessageStore.Messages.DeleteOldMessages | DroidServiceTest.Core/StoreAndForward/Model/Messages.cs:538-559 | both purges under the lock |
| MessageStore.Messages.DeleteOldMessagesNoLock | DroidServiceTest.Core/StoreAndForward/Model/Messages.cs:564-581 | the invalid purge, then every row with CreateTm at most one day before now |
| MessageStore.Messages.ResendStuckMessages | DroidServiceTest.Core/StoreAndForward/Model/Messages.cs:587-603 | every Transmitting row becomes Incomplete with SentTm null |
| MessageStore.Messages.Dispose | DroidServiceTest.Core/StoreAndForward/Model/Messages.cs:636-651 | the connection is dropped |
| Exceptions.Chain | DroidServiceTest.Core/StoreAndForward/ServiceCall.cs:146-150 | the exception and its inner exceptions, outermost first; empty only for null |
| ServiceCalls.CallGetResult | DroidServiceTest.Core/StoreAndForward/ServiceCall.cs:50-77 | a target without GetResult throws MissingMemberException; otherwise GetResult's own outcome |
| ServiceCalls.Classify | DroidServiceTest.Core/StoreAndForward/ServiceCall.cs:84-172 | success iff the method resolves on a non-null target and it (and GetResult, when used) returns; NotDestinedForTarget iff unresolved and nothing thrown; an exception is CompletedWithError iff it is a (wrapped) ErrorResponseException, else FailedToSend; the exception is unwrapped once |
| ServiceCalls.ServiceProxyEventArgs.constructor | DroidServiceTest.Core/StoreAndForward/ServiceCall.cs:88-92 | the event arguments start with the given status and method name, no exception and no value |
| ServiceCalls.ServiceCall.constructor | DroidServiceTest.Core/StoreAndForward/ServiceCall.cs:17-41 | a call with the given attributes and no listener |
| ServiceCalls.ServiceCall.InvokeServiceMethodAsync | DroidServiceTest.Core/StoreAndForward/ServiceCall.cs:84-192 | the event arguments' outcome is `Classify`; the result is the value on success, else null; the listener is notified once iff subscribed |
| ServiceProxies.GetTypes | DroidServiceTest.Core/StoreAndForward/ServiceProxy.cs:753-769 | an empty array for a null array, else each argument's runtime type, with Object for null |
| ServiceProxies.RecurringIdFor | DroidServiceTest.Core/StoreAndForward/ServiceProxy.cs:284 | Guid.Empty iff the method is not recurring; otherwise the caller's id, or a new one when the caller's id is empty |
| ServiceProxies.Slots | DroidServiceTest.Core/StoreAndForward/ServiceProxy.cs:527-545 | one slot per argument, null for a null argument, Sequence = index + 1; none for a null array |
| ServiceProxies.CallMessage | DroidServiceTest.Core/StoreAndForward/ServiceProxy.cs:518-526 | the stored message is Incomplete, carries the payload, the type name, wifiOnly, the recurring id and the slots |
| ServiceProxies.BuildMessage | DroidServiceTest.Core/StoreAndForward/ServiceProxy.cs:518-545 | the loop builds exactly `CallMessage` |
| ServiceProxies.PreInvoke | DroidServiceTest.Core/StoreAndForward/ServiceProxy.cs:400-402 | the call's row gets one more retry and becomes Transmitting; other rows unchanged |
| ServiceProxies.Completed | DroidServiceTest.Core/StoreAndForward/ServiceProxy.cs:482-509 | recurring: reset to Incomplete; else success deletes, refusal marks Failed, anything else back to Incomplete; other rows unchanged |
| ServiceProxies.RetryPolicy | DroidServiceTest.Core/StoreAndForward/ServiceProxy.cs:396-509 | an invocation leaves the row pending, with one more retry, iff the call is recurring or did not reach the service |
| ServiceProxies.AbsentRowUntouched | DroidServiceTest.Core/StoreAndForward/ServiceProxy.cs:396-509 | an invocation of a call with no row changes nothing |
| ServiceProxies.Filtered | DroidServiceTest.Core/StoreAndForward/ServiceProxy.cs:317 | the replay filter keeps at most the calls it is given |
| ServiceProxies.FilteredAppend | DroidServiceTest.Core/StoreAndForward/ServiceProxy.cs:317 | the filter keeps order: filtering a concatenation concatenates the filtered parts |
| ServiceProxies.FilteredStep | DroidServiceTest.Core/StoreAndForward/ServiceProxy.cs:317 | filtering one more call adds it iff it passes the filter |
| ServiceProxies.CancelledPrefix | DroidServiceTest.Core/StoreAndForward/ServiceProxy.cs:317-322 | a cancellation before a replayable call leaves a strict prefix of the filtered calls replayed |
| ServiceProxies.FilterKeepsAll | DroidServiceTest.Core/StoreAndForward/ServiceProxy.cs:352-371 | because `WifiConnected` is always true, the filter keeps every pending call |
| ServiceProxies.ReplayStep | DroidServiceTest.Core/StoreAndForward/ServiceProxy.cs:317-341 | replaying one more call extends the table and notifications by that call's effect |
| ServiceProxies.ReplayFrame | DroidServiceTest.Core/StoreAndForward/ServiceProxy.cs:317-341 | a replay leaves every row that no replayed call names unchanged |
| ServiceProxies.Revived | DroidServiceTest.Core/StoreAndForward/ServiceProxy.cs:564-616 | the rebuilt calls are a prefix of the pending messages, by message id; all of them when every message decodes |
| ServiceProxies.WaitStepsCover | DroidServiceTest.Core/StoreAndForward/ServiceProxy.cs:660-694 | the wait loop sleeps ceil(interval / 5000) times: enough to cover the interval, one fewer would not be |
| ServiceProxies.WaitLoop | DroidServiceTest.Core/StoreAndForward/ServiceProxy.cs:666-694 | the number of 5000 ms sleeps is `WaitSteps`, cut short by cancellation |
| ServiceProxies.CancellationTokenSource.Cancel | DroidServiceTest.Core/StoreAndForward/ServiceProxy.cs:117 | the token reads as cancelled |
| ServiceProxies.ServiceProxy.constructor | DroidServiceTest.Core/StoreAndForward/ServiceProxy.cs:48-59 | a proxy over the store with no worker, no token and no notifications |
| ServiceProxies.ServiceProxy.CallService | DroidServiceTest.Core/StoreAndForward/ServiceProxy.cs:268-292 | a null method fails with ArgumentException and stores nothing; otherwise the call is stored and its `RecurringIdFor` id returned |
| ServiceProxies.ServiceProxy.Create | DroidServiceTest.Core/StoreAndForward/ServiceProxy.cs:516-558 | stores `CallMessage` through AddNewMessage and records the new id in the call (0 when disconnected) |
| ServiceProxies.ServiceProxy.CallServiceCall | DroidServiceTest.Core/StoreAndForward/ServiceProxy.cs:378-443 | nothing changes unless the method resolves; then the pre-invoke update, the invocation and the completion update (`AfterCall`), with the notification raised |
| ServiceProxies.ServiceProxy.MarkTransmitting | DroidServiceTest.Core/StoreAndForward/ServiceProxy.cs:400-402 | IncrementRetry then MarkMessage(Transmitting) is `PreInvoke` |
| ServiceProxies.ServiceProxy.CallComplete | DroidServiceTest.Core/StoreAndForward/ServiceProxy.cs:450-510 | unsubscribes, attaches the arguments, notifies listeners unless FailedToSend, then applies `Completed` |
| ServiceProxies.ServiceProxy.SettleMessage | DroidServiceTest.Core/StoreAndForward/ServiceProxy.cs:482-509 | while connected the row becomes `Completed` for the status and recurring flag; disconnected, the table is untouched |
| ServiceProxies.ServiceProxy.RetrievePendingMessages | DroidServiceTest.Core/StoreAndForward/ServiceProxy.cs:564-616 | reads the pending rows oldest first, each as the message stored in it (`StoredPending`), and rebuilds them as `Revived` |
| ServiceProxies.ServiceProxy.ReviveAll | DroidServiceTest.Core/StoreAndForward/ServiceProxy.cs:575-607 | the loop rebuilds exactly `Revived` |
| ServiceProxies.ServiceProxy.ReviveMessage | DroidServiceTest.Core/StoreAndForward/ServiceProxy.cs:579-606 | one message rebuilt as `Revive` from its text and stored parameters |
| ServiceProxies.ServiceProxy.DecodeArguments | DroidServiceTest.Core/StoreAndForward/ServiceProxy.cs:587-603 | the argument array is `DecodedArgs`, and null when there are no parameters |
| ServiceProxies.ServiceProxy.ReplayCall | DroidServiceTest.Core/StoreAndForward/ServiceProxy.cs:324-340 | re-targets one call at the service and calls it (`ReplayOne`); a missing service skips it |
| ServiceProxies.ServiceProxy.SendPendingMessages | DroidServiceTest.Core/StoreAndForward/ServiceProxy.cs:309-343 | replays a prefix of the calls rebuilt from the stored pending rows that pass the filter, in order, all of them unless cancelled; the table and notifications are `Replay` of that prefix |
| ServiceProxies.ServiceProxy.ReplayNext | DroidServiceTest.Core/StoreAndForward/ServiceProxy.cs:317-341 | one loop pass extends the replay so far by one call |
| ServiceProxies.ServiceProxy.ReplayAll | DroidServiceTest.Core/StoreAndForward/ServiceProxy.cs:317-341 | the `foreach` replays a prefix of the filtered calls; cancelled iff the token fires before the end, and then exactly `cancelAt` calls, otherwise all of them |
| ServiceProxies.ServiceProxy.StartWorker | DroidServiceTest.Core/StoreAndForward/ServiceProxy.cs:68-102 | always true; a running worker keeps its token, otherwise a fresh token is taken |
| ServiceProxies.ServiceProxy.StopWorker | DroidServiceTest.Core/StoreAndForward/ServiceProxy.cs:108-120 | the held token, if any, is cancelled and released |
| ServiceProxies.ServiceProxy.WorkerRound | DroidServiceTest.Core/StoreAndForward/ServiceProxy.cs:628-702 | one loop round: stops iff cancelled at the start, cancelled during the replay of the stored pending calls, or the interval does not fit `Convert.ToInt32`; otherwise replays every filtered pending call, then waits `WaitSteps` sleeps or until cancelled |
| ServiceProxies.ServiceProxy.SendThenWait | DroidServiceTest.Core/StoreAndForward/ServiceProxy.cs:640-702 | the round after the token check: the replay of `SendPendingMessages`, then the stop on an interval outside the `int` range, then the wait |
| ServiceProxies.ServiceProxy.Dispose | DroidServiceTest.Core/StoreAndForward/ServiceProxy.cs:708-741 | the first call stops the worker and drops the service; later calls change nothing |
| GenericExtensions.UnwindException | DroidServiceTest.Core/GenericExtensionMethods.cs:15-28 | empty iff the exception is null; otherwise it begins with the exception's own Message/Stacktrace segment |
| GenericExtensions.UnwindChain | DroidServiceTest.Core/GenericExtensionMethods.cs:15-28 | the text is exactly one segment per link of the inner-exception chain, outermost first |
| GenericExtensions.IsNull | DroidServiceTest.Core/GenericExtensionMethods.cs:8-13 | true iff there is no value |
| ToStringBuilders.ParseName | DroidServiceTest.Core/ToStringBuilder.cs:41-53 | a name without the backing-field marker is returned as it is |
| ToStringBuilders.ParseBackingField | DroidServiceTest.Core/ToStringBuilder.cs:41-53 | the property name is recovered from its backing field's name |
| ToStringBuilders.ParseNameThrows | DroidServiceTest.Core/ToStringBuilder.cs:41-53 | a backing-field name without '>' makes `Substring` throw |
| ToStringBuilders.FieldsTextThrows | DroidServiceTest.Core/ToStringBuilder.cs:28-37 | the field dump throws iff some instance field's name cannot be parsed |
| ToStringBuilders.Rendered | DroidServiceTest.Core/ToStringBuilder.cs:16-39 | "Object is null" for null; otherwise it fails iff a name is unparsable, else "[Type:<T>" … "]" |
| ToStringBuilders.Instance | DroidServiceTest.Core/ToStringBuilder.cs:31 | the non-static fields, none of them static |
| ToStringBuilders.StaticFieldsSkipped | DroidServiceTest.Core/ToStringBuilder.cs:28-37 | static fields contribute nothing to the dump |
| ToStringBuilders.ReflectionToString | DroidServiceTest.Core/ToStringBuilder.cs:16-39 | the loop produces exactly `Rendered` |
| ExternalStorage.Classify | ServiceTest.Droid/Services/ExternalStorageHelper.cs:31-57 | available iff mounted or mounted read-only; writeable iff mounted |
| ExternalStorage.ClassifyStateName | ServiceTest.Droid/Services/ExternalStorageHelper.cs:48-55 | each listed state string gives its own media state |
| ExternalStorage.ClassifyUnlisted | ServiceTest.Droid/Services/ExternalStorageHelper.cs:55-57 | an unlisted state string gives Unknown, neither available nor writeable |
| ExternalStorage.ClassifyNamesState | ServiceTest.Droid/Services/ExternalStorageHelper.cs:31-55 | a known classified state maps back to the string it came from |
| ExternalStorage.ExternalStorageHelper.constructor | ServiceTest.Droid/Services/ExternalStorageHelper.cs:12-13 | nothing is available or writeable and the state is Unknown |
| ExternalStorage.ExternalStorageHelper.CheckState | ServiceTest.Droid/Services/ExternalStorageHelper.cs:16-72 | the fields become `Classify` of the probed state; a throwing probe leaves them as they were |
| ExternalStorage.ExternalStorageHelper.IsAvailable | ServiceTest.Droid/Services/ExternalStorageHelper.cs:74-81 | true iff the probed state is mounted or mounted read-only |
| ExternalStorage.ExternalStorageHelper.IsWriteable | ServiceTest.Droid/Services/ExternalStorageHelper.cs:83-90 | true iff the probed state is mounted |
| ExternalStorage.ExternalStorageHelper.IsAvailableAndWriteable | ServiceTest.Droid/Services/ExternalStorageHelper.cs:92-99 | true iff the probed state is mounted |
| ExternalStorage.ExternalStorageHelper.GetCurrentState | ServiceTest.Droid/Services/ExternalStorageHelper.cs:101-108 | the classified state of the probe |
| MessageLevels.LevelLetter | DroidServiceTest.Core/Logging/Model/LogMessage.cs:72 | the level's first letter, one character |
| MessageLevels.OrdinalInjective | DroidServiceTest.Core/Logging/Model/MessageLevel.cs:7-16 | levels are told apart by their underlying values |
| MessageLevels.LevelLetterInjective | DroidServiceTest.Core/Logging/Model/MessageLevel.cs:3-16 | no two levels share a first letter, as the enumeration's comment requires |
| LoggingRules.Parsed | DroidServiceTest.Core/Logging/Model/LoggingRule.cs:21-71 | parsing either keeps the previous matcher (the lone "*") or sets a mode other than All, with an argument |
| LoggingRules.LoggingRule.constructor | DroidServiceTest.Core/Logging/Model/LoggingRule.cs:7-13 | a fresh rule: no name, mode All, MinLevel Trace, not Final, no WriteTo |
| LoggingRules.LoggingRule.SetName | DroidServiceTest.Core/Logging/Model/LoggingRule.cs:21-71 | the name is stored; a null name throws and keeps the matcher; otherwise the matcher is `Parsed` |
| LoggingRules.LoggingRule.NameMatches | DroidServiceTest.Core/Logging/Model/LoggingRule.cs:73-99 | never true for a rule without a name or a null logger name |
| LoggingRules.ExactPattern | DroidServiceTest.Core/Logging/Model/LoggingRule.cs:28-33 | a pattern without '*' matches exactly the ordinal-equal name |
| LoggingRules.PrefixPattern | DroidServiceTest.Core/Logging/Model/LoggingRule.cs:36-47 | "a*b" with non-empty a tests the prefix a; b is ignored |
| LoggingRules.SuffixPattern | DroidServiceTest.Core/Logging/Model/LoggingRule.cs:49-55 | "*b" tests the suffix b |
| LoggingRules.LoneStar | DroidServiceTest.Core/Logging/Model/LoggingRule.cs:57 | "*" leaves the matcher as it was |
| LoggingRules.ContainsPattern | DroidServiceTest.Core/Logging/Model/LoggingRule.cs:61-67 | "*m*" tests whether the name contains m, with inner stars taken literally |
| LoggingRules.DoubleStarMatchesAll | DroidServiceTest.Core/Logging/Model/LoggingRule.cs:61-67 | "**" matches every name |
| LoggingRules.MisplacedStars | DroidServiceTest.Core/Logging/Model/LoggingRule.cs:69-70 | two or more stars without one at each end match nothing |
| LoggingRules.FreshRuleStar | DroidServiceTest.Core/Logging/Model/LoggingRule.cs:57 | a fresh rule named "*" keeps mode All and matches every non-null name |
| LoggerWrappers.WrapperLog | DroidServiceTest.Core/Logging/Logger/LoggerWrapper.cs:16 | at most one delivery, to the wrapper's target, of the message unchanged |
| LoggerWrappers.EnabledAtMost | DroidServiceTest.Core/Logging/Logger/LoggerWrapper.cs:10-15 | the Trace test and the other level tests agree: enabled iff MinLevel is at or below the level |
| LoggerWrappers.EnabledUpward | DroidServiceTest.Core/Logging/Logger/LoggerWrapper.cs:10-15 | a level above an enabled level is enabled |
| LoggerWrappers.NoneSilences | DroidServiceTest.Core/Logging/Logger/LoggerWrapper.cs:10-16 | MinLevel None enables no `Is*Enabled` query and forwards no message from Trace to Fatal; a message of level None still passes (`None <= None`) |
| LoggerWrappers.ForwardsIffEnabled | DroidServiceTest.Core/Logging/Logger/LoggerWrapper.cs:10-16 | a message is forwarded exactly when its level is enabled |
| MultiLoggers.AnyEnabled | DroidServiceTest.Core/Logging/Logger/MultiLogger.cs:22-27 | true iff some wrapper has the level enabled |
| MultiLoggers.RemoveFirstOne | DroidServiceTest.Core/Logging/Logger/MultiLogger.cs:20 | `Remove` drops one occurrence of a listed wrapper and changes nothing otherwise |
| MultiLoggers.MultiLogger.constructor | DroidServiceTest.Core/Logging/Logger/MultiLogger.cs:12-15 | a multi-logger with its name and no wrappers |
| MultiLoggers.MultiLogger.Add | DroidServiceTest.Core/Logging/Logger/MultiLogger.cs:19 | appends the wrapper; the count grows by one |
| MultiLoggers.MultiLogger.Remove | DroidServiceTest.Core/Logging/Logger/MultiLogger.cs:20 | removes the first occurrence; the count drops by one iff the wrapper was listed |
| MultiLoggers.MultiLogger.IsEnabled | DroidServiceTest.Core/Logging/Logger/MultiLogger.cs:22-27 | never enabled with no wrappers |
| MultiLoggers.MultiLogger.LogMessage | DroidServiceTest.Core/Logging/Logger/MultiLogger.cs:28-35 | stamps the logger name, then delivers to each wrapper's target in list order (`WrapperLogs`) |
| MultiLoggers.WrapperLogsAppend | DroidServiceTest.Core/Logging/Logger/MultiLogger.cs:31-34 | fanning out to a list is fanning out to its halves in turn |
| MultiLoggers.WrapperLogsDeliveries | DroidServiceTest.Core/Logging/Logger/MultiLogger.cs:31-34 | every delivery carries the stamped message; none iff no rule lets the level through; at most one per wrapper |
| MultiLoggers.DeliversIffEnabled | DroidServiceTest.Core/Logging/Logger/MultiLogger.cs:22-34 | a message is delivered to somebody iff the multi-logger reports its level enabled |
| BaseLoggers.CreateLogMessage | DroidServiceTest.Core/Logging/Logger/BaseLogger.cs:134-158 | the message carries the level, text, exception, caller location and time; application, user, device and logger name stay null |
| BaseLoggers.BaseIsEnabled | DroidServiceTest.Core/Logging/Logger/BaseLogger.cs:104-132 | the base class reports every level disabled |
| BaseLoggers.BaseLogMessage | DroidServiceTest.Core/Logging/Logger/BaseLogger.cs:28-30 | the base class delivers nothing |
| BaseLoggers.WrapperEntryGate | DroidServiceTest.Core/Logging/Logger/BaseLogger.cs:32-102 | a level entry point on a wrapper reaches the target iff that level is enabled, with the caller's text, level and location unchanged |
| BaseLoggers.MultiEntry | DroidServiceTest.Core/Logging/Logger/BaseLogger.cs:32-102 | a level entry point on a multi-logger delivers to somebody iff the level is enabled |
| LogMessages.Token | DroidServiceTest.Core/Logging/Model/LogMessage.cs:43-56 | an option is "${" + name + "}" |
| LogMessages.DateText | DroidServiceTest.Core/Logging/Model/LogMessage.cs:73 | the rendered date holds no '$' |
| LogMessages.SourceFileName | DroidServiceTest.Core/Logging/Model/LogMessage.cs:76 | the path's tail after its last separator, holding no separator |
| LogMessages.MessageValues | DroidServiceTest.Core/Logging/Model/LogMessage.cs:67-80 | one value per option that ToString replaces |
| LogMessages.ToString | DroidServiceTest.Core/Logging/Model/LogMessage.cs:58-83 | a format without "${" yields the bare message; otherwise a rendered string |
| LogMessages.ToLayoutHeader | DroidServiceTest.Core/Logging/Model/LogMessage.cs:85-106 | a format without "${" comes back unchanged |
| LogMessages.ReplaceIsSubst | DroidServiceTest.Core/Logging/Model/LogMessage.cs:67-81 | one `Replace` on a layout substitutes that option's pieces |
| LogMessages.PipelineRendersLayout | DroidServiceTest.Core/Logging/Model/LogMessage.cs:67-81 | the chain of replacements renders a layout in one pass when no value holds '$' |
| LogMessages.LayoutOpens | DroidServiceTest.Core/Logging/Model/LogMessage.cs:63 | a layout string holds "${" iff the layout has an option |
| LogMessages.ToStringRendersLayout | DroidServiceTest.Core/Logging/Model/LogMessage.cs:58-83 | ToString is the bare message for a layout without options; otherwise each known option becomes the event's value and unknown options stay |
| LogMessages.LayoutHeaderRenders | DroidServiceTest.Core/Logging/Model/LogMessage.cs:85-106 | ToLayoutHeader replaces each known option by its column title in one pass |
| LogMessages.DateLevelMessageLayout | DroidServiceTest.Core/Logging/Model/LogMessage.cs:67-81 | "${date} ${level} ${message}" renders as date, level letter and message |
| LogMessages.UnnamedOptionKept | DroidServiceTest.Core/Logging/Model/LogMessage.cs:67-81 | an option nothing replaces passes through unchanged |
| LogMessages.ValueRescanned | DroidServiceTest.Core/Logging/Model/LogMessage.cs:67-81 | a value spelling a later option is itself replaced by that later option's value |
| LogMessages.MessageTextRescanned | DroidServiceTest.Core/Logging/Model/LogMessage.cs:71-72 | a message whose text is "${level}" comes out as the level letter |
| LoggingTargets.EmptyConfig | DroidServiceTest.Core/Logging/Model/LoggingConfig.cs:7-11 | `new LoggingConfig()` has no rules, no targets and no custom file name |
| LogFactories.FindTarget | DroidServiceTest.Core/Logging/LogFactory.cs:222-231 | Found gives the first target named WriteTo; Absent iff every target has a name and none is WriteTo; Throws iff a null name comes before any match |
| LogFactories.Create | DroidServiceTest.Core/Logging/LogFactory.cs:231-239 | fails iff the type neither is "platform" (any case) nor is registered; the platform logger for "platform"; otherwise a new instance of the registered type |
| LogFactories.RulesOf | DroidServiceTest.Core/Logging/LogFactory.cs:247-251 | the wrappers' rules, in list order |
| LogFactories.StepSkipsUnnamed | DroidServiceTest.Core/Logging/LogFactory.cs:222 | a rule whose WriteTo names no target changes nothing |
| LogFactories.StepReusesCached | DroidServiceTest.Core/Logging/LogFactory.cs:225-228 | a cached WriteTo gets a wrapper around the cached logger |
| LogFactories.StepCachesConfigurable | DroidServiceTest.Core/Logging/LogFactory.cs:229-251 | a new logger is cached with its target iff it is non-null and takes a configuration; the wrapper falls back to the platform logger, then to a NullLogger |
| LogFactories.StepWires | DroidServiceTest.Core/Logging/LogFactory.cs:217-257 | one rule adds exactly one wrapper, for itself, iff it wires; earlier wrappers stay |
| LogFactories.StepKeepsCacheConfigured | DroidServiceTest.Core/Logging/LogFactory.cs:240-244 | the cache holds only configured loggers and never loses or rebinds a key |
| LogFactories.AddedAllWires | DroidServiceTest.Core/Logging/LogFactory.cs:215-258 | the wrappers added are, in order, one per rule that wires |
| LogFactories.AddedAllKeepsCacheConfigured | DroidServiceTest.Core/Logging/LogFactory.cs:215-258 | over all rules the cache keeps only configured loggers |
| LogFactories.AllRulesWired | DroidServiceTest.Core/Logging/LogFactory.cs:215-258 | when every rule wires, every rule gets its wrapper in order |
| LogFactories.WiredRulesSubsequence | DroidServiceTest.Core/Logging/LogFactory.cs:215-258 | only wiring rules get wrappers, at most one each, in configured order |
| LogFactories.FreshFactoryWires | DroidServiceTest.Core/Logging/LogFactory.cs:122-150 | a new factory holds one wrapper per wiring rule, in order, and caches only configured loggers |
| LogFactories.AtMostThreeAttempts | DroidServiceTest.Core/Logging/LogFactory.cs:159-171 | only the attempts with retry counts 0, 1 and 2 decide the result |
| LogFactories.FirstSettledAttempt | DroidServiceTest.Core/Logging/LogFactory.cs:159-171 | the result is that of the first attempt that does not throw |
| LogFactories.ThreeFailuresGiveNull | DroidServiceTest.Core/Logging/LogFactory.cs:166-170 | three throwing attempts give null |
| LogFactories.ChosenConfig | DroidServiceTest.Core/Logging/LogFactory.cs:125-147 | without a built-in configuration the result is the empty configuration; otherwise it is the built-in one or the loaded custom file, and the custom file's when the built-in names one and it loads |
| LogFactories.CustomConfigUsed | DroidServiceTest.Core/Logging/LogFactory.cs:133-143 | the custom file is used iff the built-in configuration names one and it loads |
| LogFactories.Matching | DroidServiceTest.Core/Logging/LogFactory.cs:90 | the matching wrappers read only rules of the list |
| LogFactories.FirstFinal | DroidServiceTest.Core/Logging/LogFactory.cs:93-96 | the first wrapper whose rule is Final, or -1 when none is |
| LogFactories.MatchingSpec | DroidServiceTest.Core/Logging/LogFactory.cs:88-90 | the matches are exactly the wrappers whose rule matches, in list order |
| LogFactories.MatchingAppend | DroidServiceTest.Core/Logging/LogFactory.cs:90 | filtering keeps order across a concatenation |
| LogFactories.FirstFinalMatchIndex | DroidServiceTest.Core/Logging/LogFactory.cs:93-96 | the first wrapper that both matches and is Final, or -1 |
| LogFactories.FirstFinalMatch | DroidServiceTest.Core/Logging/LogFactory.cs:90-96 | the first Final match is the first wrapper that matches and is Final |
| LogFactories.LogFactory.constructor | DroidServiceTest.Core/Logging/LogFactory.cs:122-150 | given a platform logger (every path logs through it), the type table, then the chosen configuration's rules added to empty lists |
| LogFactories.LogFactory.AddLoggerWrappers | DroidServiceTest.Core/Logging/LogFactory.cs:215-258 | the rule loop's new state is `AddedAll` of the old state |
| LogFactories.LogFactory.AddWrapper | DroidServiceTest.Core/Logging/LogFactory.cs:219-256 | one pass of the loop is `Step` |
| LogFactories.LogFactory.GetLogger | DroidServiceTest.Core/Logging/LogFactory.cs:85-109 | a multi-logger is named after the request and is never empty |
| LogFactories.GetLoggerFallsBack | DroidServiceTest.Core/Logging/LogFactory.cs:108 | with no matching rule: the platform logger, or a NullLogger without one |
| LogFactories.GetLoggerFinalWins | DroidServiceTest.Core/Logging/LogFactory.cs:93-97 | a single wrapper comes back iff some match is Final, and it is the first such wrapper |
| LogFactories.GetLoggerMulti | DroidServiceTest.Core/Logging/LogFactory.cs:99-105 | matches without a Final one give a multi-logger over exactly the matching wrappers, in order |
| FileLoggers.JoinDots | DroidServiceTest.Core/Logging/Logger/FileLogger.cs:83-97 | the extension the loop builds rejoins the split name after its first part |
| FileLoggers.StemLength | DroidServiceTest.Core/Logging/Logger/FileLogger.cs:83-84 | the position of the first '.', within the name |
| FileLoggers.DefaultArchiveNameInserts | DroidServiceTest.Core/Logging/Logger/FileLogger.cs:81-99 | the default archive name is the file name with "_#" inserted before its first '.' |
| FileLoggers.SlotNameFills | DroidServiceTest.Core/Logging/Logger/FileLogger.cs:318 | with one '#', slot n puts the number where the '#' is |
| FileLoggers.NatToStringInjective | DroidServiceTest.Core/Logging/Logger/FileLogger.cs:318 | different slot numbers print differently |
| FileLoggers.SlotNamesDistinct | DroidServiceTest.Core/Logging/Logger/FileLogger.cs:318-329 | slots of a name with exactly one '#' have pairwise different names |
| FileLoggers.DefaultSlotNames | DroidServiceTest.Core/Logging/Logger/FileLogger.cs:81-99 | the default name's slots insert "_n" before the first '.' and are all different |
| FileLoggers.ShouldArchiveUpward | DroidServiceTest.Core/Logging/Logger/FileLogger.cs:470-473 | a file that should be archived still should once it is longer |
| FileLoggers.ShouldArchiveThreshold | DroidServiceTest.Core/Logging/Logger/FileLogger.cs:470-473 | a threshold of zero or less turns archiving off; otherwise archive from that size on |
| FileLoggers.MoveGuarded | DroidServiceTest.Core/Logging/Logger/FileLogger.cs:349-367 | without the lock, or for a missing or null source, a move changes nothing |
| FileLoggers.MoveMoves | DroidServiceTest.Core/Logging/Logger/FileLogger.cs:364-372 | the target holds the source's content, the source is gone, and the rest stays |
| FileLoggers.WriteReportsLength | DroidServiceTest.Core/Logging/Logger/FileLogger.cs:259-313 | 0 when nothing is written; otherwise the reported length is the new file length iff the line terminator is two characters |
| FileLoggers.OpenedMarksNewFile | DroidServiceTest.Core/Logging/Logger/FileLogger.cs:409-448 | opening marks the header as due iff the file is new; the file then exists |
| FileLoggers.HeaderClearsFlag | DroidServiceTest.Core/Logging/Logger/FileLogger.cs:171-183 | after a header write no header is due, and the open file is kept |
| FileLoggers.ProbeFromFirstFree | DroidServiceTest.Core/Logging/Logger/FileLogger.cs:321-330 | the probe from slot n stops at the first missing slot, or rolls at the last |
| FileLoggers.ProbeFirstFree | DroidServiceTest.Core/Logging/Logger/FileLogger.cs:315-335 | the archive slot is the smallest missing one; when all are taken the logs roll and the last slot is used |
| FileLoggers.RollFromShifts | DroidServiceTest.Core/Logging/Logger/FileLogger.cs:340-346 | rolling from slot k moves each slot m+1 onto slot m, removes the top slot and leaves every file outside the slot range alone (`ShiftedFrom`) |
| FileLoggers.RollShiftsSlots | DroidServiceTest.Core/Logging/Logger/FileLogger.cs:337-347 | rolling full, distinct slots shifts every slot down by one, frees the last and keeps the rest |
| FileLoggers.DrainedAppend | DroidServiceTest.Core/Logging/Logger/FileLogger.cs:203-257 | draining two batches in turn is draining them together: first in, first out |
| FileLoggers.PerformedPlainLayout | DroidServiceTest.Core/Logging/Logger/FileLogger.cs:138-169 | under a layout without options the bare text is written, and archiving follows the reported size |
| FileLoggers.ArchiveDefaultedWhen | DroidServiceTest.Core/Logging/Logger/FileLogger.cs:81-99 | the default archive name is applied iff archiving is on, no name is set and the file is named |
| FileLoggers.FileLogger.constructor | DroidServiceTest.Core/Logging/Logger/FileLogger.cs:54-101 | a logger over a folder, configured: log file opened, header written if new, archive name defaulted unless the header of a new file under a `null` layout throws first (`Initialized`) |
| FileLoggers.FileLogger.SetTargetConfig | DroidServiceTest.Core/Logging/Logger/FileLogger.cs:54-62 | stores the target, then `Initialize`, leaving the target `Initialized` |
| FileLoggers.FileLogger.Initialize | DroidServiceTest.Core/Logging/Logger/FileLogger.cs:64-101 | opens the log file (header if new) unless one is open; a new file under a `null` layout throws in the header step and ends it; otherwise defaults the archive name |
| FileLoggers.FileLogger.ArchiveExtension | DroidServiceTest.Core/Logging/Logger/FileLogger.cs:83-97 | the extension is every part after the file name, each with its dot restored (`Dots`), so `_#` goes right before the original extensions |
| FileLoggers.FileLogger.GetFile | DroidServiceTest.Core/Logging/Logger/FileLogger.cs:409-468 | `_file` becomes `Opened`: null without the lock, with unready storage or a null name |
| FileLoggers.FileLogger.WriteToFile | DroidServiceTest.Core/Logging/Logger/FileLogger.cs:259-313 | the folder and returned length are `Write` |
| FileLoggers.FileLogger.WriteHeader | DroidServiceTest.Core/Logging/Logger/FileLogger.cs:171-183 | `HeaderWritten`: header line written and flag cleared; a null layout changes nothing |
| FileLoggers.FileLogger.MoveLog | DroidServiceTest.Core/Logging/Logger/FileLogger.cs:349-396 | the folder becomes `Moved` |
| FileLoggers.FileLogger.RollLogs | DroidServiceTest.Core/Logging/Logger/FileLogger.cs:337-347 | the loop's folder is `Rolled` |
| FileLoggers.FileLogger.Archive | DroidServiceTest.Core/Logging/Logger/FileLogger.cs:315-335 | the probe loop, the move and the reopen give `Archived` |
| FileLoggers.FileLogger.PerformLogging | DroidServiceTest.Core/Logging/Logger/FileLogger.cs:138-169 | render, write under the sync lock, archive when due: `Performed` |
| FileLoggers.FileLogger.LogMessage | DroidServiceTest.Core/Logging/Logger/FileLogger.cs:103-134 | the message joins the back of the queue, or is dropped when the queue lock times out |
| FileLoggers.FileLogger.Dequeue | DroidServiceTest.Core/Logging/Logger/FileLogger.cs:214-226 | takes the front message under the lock; nothing without the lock or with an empty queue |
| FileLoggers.FileLogger.Drain | DroidServiceTest.Core/Logging/Logger/FileLogger.cs:203-257 | logs every queued message in queue order, leaving the queue empty |

## Left out

- The `CallService(string methodName, …)` overloads (ServiceProxy.cs:204-256) are not modelled: each looks a method up by name on `ProxiedService` and delegates to the `MethodInfo` overload, which is modelled. The lookup is reflection.
- `PendingMessageCount`, `PurgePendingMessages` and `StopRecurringServiceCall` (ServiceProxy.cs:150-195, 299-302) are not modelled. They only delegate to `GetPendingMessages`, `DeletePendingMessages` and `RemoveRecurringMessage`, which are modelled.
- The `CauseError` test hook (ServiceProxy.cs:618-622) is not modelled. It exists only to make the worker throw in tests.
- `ProxiedService` and its `Assembly.Load` are reduced to the flag `hasService`.
- LogFactories.LogFactory.constructor requires a platform logger. Without one the source's `Initialize` throws a NullReferenceException, so no factory exists. The platform logger is read once, as the constant `platform`. The `?? new NullLogger()` fallbacks in `AddLoggerWrappers` and `GetLogger` are modelled by the functions over `platform`, but the class never reaches them.
- MessageStore.Appended stores one child row per non-null parameter. This is an assumption about SQLite-Net Extensions' `InsertWithChildren`, whose handling of the `null` entries `BuildMessage` adds is not in the source. One consequence: a call `f(null, 5)` is stored with one child. On replay it is rebuilt with a one-element argument array, its method lookup fails, and it is never delivered.
- ServiceProxies.ServiceProxy.WorkerRound takes the retry interval as whole milliseconds (`retryMs: int`). `Convert.ToInt32` of the source's fractional `TotalMilliseconds` rounds to the nearest integer; that rounding is not modelled.
- ServiceProxies.ServiceProxy.constructor has no delegate parameter. The source's `ArgumentNullException` for a `null` delegate is not modelled; the delegate is reduced to the flag `hasService`.
- LogMessages.DateText fixes the `/` and `:` separators of the `"MM/dd/yyyy HH:mm:ss:fff"` format. In .NET these are culture-dependent placeholders; the model takes the invariant culture.
- ServiceProxies.ServiceProxy.WorkerRound models one round of the endless `WorkerProcAsync` loop, not the loop itself. The loop never terminates by design. `GetAvailableThreads` is diagnostics only.
- Concurrency is not modelled.
  - `Task.Run`, `async`/`await`, the semaphores and the event handlers' threads run sequentially in the model.
  - An invocation completes right after its pre-invoke update.
  - The outcome of each lock wait inside `Messages` and `FileLogger` is an input.
  - The composite file operations of `FileLogger` run as if the file lock is always acquired.
- ServiceProxies.ServiceProxy.Create, MarkTransmitting, SettleMessage, RetrievePendingMessages and ReviveMessage call the store with its lock always obtained (`lockTaken = true`). A timed-out `SyncLock.Wait` on the proxy's path is not modelled. In the source it has these effects:
  - `Create` records id 0 for a call that was never stored.
  - `IncrementRetry` returns false and leaves the row as it was.
  - `GetMessage` returns `new Message()`.
  - `RetrievePendingMessages` gets an empty list.
- FileLoggers.FileLogger.Drain does not model the race in `StartQueueLoggerAsync`, where the consumer task checks `QueueLoggerIsRunning` on itself. The model drains the queue with every lock acquired.
- `Messages.Instance` and the `Create` singleton logic are not modelled; the store is one object handed to the proxy.
- Reflection, `Activator.CreateInstance`, `Type.GetType` and `InitializeLoggerTypeInfo` are not modelled.
  - The `[Target]` table is the constant `DefaultLoggerTypes`. Its entries are File, Null and Platform, from FileLogger.cs:27, NullLogger.cs:7 and PlatformLogger.cs:7.
- JSON serialisation is not modelled. The call's text is an opaque payload, and decoding is given as functions.
- The clock is an input. Dates are whole seconds, and `DateTime.TryParse` of a CreateTm is the input set `unparsable`.
- SQLite triggers, transactions and trace listeners are not modelled.
- `LogFactory.GetLogger(Type)` and `GetLogger<T>()` are not modelled. They call `GetLogger(type.FullName)`, and `FullName` is not modelled.
- `LogFactory.Instance`, `Reset` and `InitializeLoggerConfig`'s platform service are not modelled. The built-in configuration is an input that may be null.
- The `Db*` and `Email*` properties of `LoggingTarget` are not modelled. No core code reads them.
- `PlatformLogger`'s Android logging, `LogErrorToPlatform`, `ScanFile` and the debug logger are not modelled. They are output only.
- `FileLogger` counts file lengths in characters, not bytes. `PCLStorage` and the media scanner are not modelled.
- Folder paths are not modelled.
  - Files are named relative to `_path`, taken to be absolute.
  - Combining `_path` with a name already combined with it gives the same path, as `ArchiveAsync` relies on.
- FileLoggers.FileLogger.SetTargetConfig keeps its own copy of the target. The source shares the `LoggingTarget` object with the configuration, so the default archive name is also visible there.
- A `null` message in the `FileLogger` queue is not modelled (`LogMessage` is never given one).
- MessageLevels: `None` has no `Is*Enabled` query. The functions that answer one require a level other than `None`.
