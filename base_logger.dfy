/**
 * `BaseLogger` (`Logging/Logger/BaseLogger.cs`): the class every logger
 * extends. Each level entry point (`Trace`, `Debug`, … with or without an
 * exception) builds one `LogMessage` with `CreateLogMessage` and hands it
 * to the virtual `LogMessage` once. The clock (`DateTime.Now`) is the
 * `now` parameter.
 */
module BaseLoggers {
  import opened Wrappers
  import MessageLevels
  import opened Exceptions
  import opened LogMessages
  import opened LoggerWrappers
  import opened MultiLoggers

  /**
   * `CreateLogMessage`: a fresh message with the level, text, exception,
   * caller member, file and line given and the time `now`; the
   * application, version, user, device and logger name stay `null`.
   */
  function CreateLogMessage(level: MessageLevels.MessageLevel, message: Option<string>, e: Option<Exception>,
                            memberName: Option<string>, sourceFile: Option<string>, sourceLineNumber: int,
                            now: DateTime): (m: LogMessage)
    ensures m.level == level && m.message == message && m.exception == e && m.timestamp == now
    ensures m.memberName == memberName && m.sourceFile == sourceFile && m.sourceLineNumber == sourceLineNumber
    ensures m.application.None? && m.applicationVersion.None? && m.userId.None? && m.deviceId.None? && m.loggerName.None?
  {
    LogMessage(0, message, e, None, None, now, None, None, level, memberName, sourceFile, sourceLineNumber, None)
  }

  /** The base `Is*Enabled`: every level is reported disabled. */
  function BaseIsEnabled(level: MessageLevels.MessageLevel): (r: bool)
    requires level != MessageLevels.None
    ensures !r
  {
    false
  }

  /** The base `LogMessage` does nothing: no logger receives anything. */
  function BaseLogMessage(m: LogMessage): (r: seq<Delivery>)
    ensures r == []
  {
    []
  }

  /**
   * A level entry point called on a wrapper: the wrapper's `LogMessage`
   * applied to the message `CreateLogMessage` builds for that level.
   */
  function WrapperEntry(w: LoggerWrapper, level: MessageLevels.MessageLevel, message: Option<string>,
                        e: Option<Exception>, memberName: Option<string>, sourceFile: Option<string>,
                        sourceLineNumber: int, now: DateTime): seq<Delivery>
    reads w.rule
  {
    WrapperLog(w, CreateLogMessage(level, message, e, memberName, sourceFile, sourceLineNumber, now))
  }

  /**
   * Calling a level's entry point on a wrapper reaches the target exactly
   * when that level's `Is*Enabled` holds, with the caller's text, level and
   * location carried over unchanged.
   */
  lemma WrapperEntryGate(w: LoggerWrapper, level: MessageLevels.MessageLevel, message: Option<string>,
                         e: Option<Exception>, memberName: Option<string>, sourceFile: Option<string>,
                         sourceLineNumber: int, now: DateTime)
    requires level != MessageLevels.None
    ensures var r := WrapperEntry(w, level, message, e, memberName, sourceFile, sourceLineNumber, now);
            (r != [] <==> IsEnabled(w, level)) &&
            (r != [] ==> |r| == 1 && r[0].sink == w.target && r[0].message.level == level &&
                         r[0].message.message == message && r[0].message.exception == e &&
                         r[0].message.memberName == memberName && r[0].message.sourceFile == sourceFile &&
                         r[0].message.sourceLineNumber == sourceLineNumber)
  {
    ForwardsIffEnabled(w, CreateLogMessage(level, message, e, memberName, sourceFile, sourceLineNumber, now));
  }

  /**
   * A level entry point called on a multi-logger: one `LogMessage` call
   * with the created message, which the multi-logger stamps with its name.
   */
  method MultiEntry(ml: MultiLogger, level: MessageLevels.MessageLevel, message: Option<string>,
                    e: Option<Exception>, memberName: Option<string>, sourceFile: Option<string>,
                    sourceLineNumber: int, now: DateTime)
    returns (stamped: LogMessage, deliveries: seq<Delivery>)
    ensures stamped == CreateLogMessage(level, message, e, memberName, sourceFile, sourceLineNumber, now).(loggerName := ml.name)
    ensures deliveries == WrapperLogs(ml.loggers, stamped)
    ensures level != MessageLevels.None ==> (deliveries != [] <==> ml.IsEnabled(level))
  {
    stamped, deliveries := ml.LogMessage(CreateLogMessage(level, message, e, memberName, sourceFile, sourceLineNumber, now));
    if level != MessageLevels.None {
      DeliversIffEnabled(ml.loggers, stamped);
    }
  }
}
