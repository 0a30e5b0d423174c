/**
 * `LoggerWrapper` (`Logging/Logger/LoggerWrapper.cs`): the logger handed to
 * callers, pairing a rule (whose `MinLevel` gates messages) with the
 * concrete logger that receives them. The wrapper holds the rule by
 * reference, so its gate reads the rule's current `MinLevel`.
 *
 * What a concrete logger does with a message is outside this module: a
 * forwarded message is recorded as a `Delivery` to the target.
 */
module LoggerWrappers {
  import MessageLevels
  import opened LoggingRules
  import opened LogMessages

  /**
   * A logger a wrapper can forward to: the platform's logger, a concrete
   * logger created for a target type (told apart by a creation serial), or
   * a `NullLogger`.
   */
  datatype Sink = PlatformSink | ConcreteSink(typeName: string, serial: nat) | NullSink

  /** One call of `TargetLogger.LogMessage(message)`. */
  datatype Delivery = Delivery(sink: Sink, message: LogMessage)

  datatype LoggerWrapper = LoggerWrapper(rule: LoggingRule, target: Sink)

  /** The rules a list of wrappers reads. */
  function Rules(ws: seq<LoggerWrapper>): set<LoggingRule> {
    set i | 0 <= i < |ws| :: ws[i].rule
  }

  /**
   * `Is<level>Enabled` for the six levels that have one: Trace is enabled
   * only by MinLevel Trace, every other level by any MinLevel at or below it.
   */
  function IsEnabled(w: LoggerWrapper, level: MessageLevels.MessageLevel): bool
    requires level != MessageLevels.None
    reads w.rule
  {
    if level == MessageLevels.Trace then w.rule.minLevel == MessageLevels.Trace
    else MessageLevels.AtMost(w.rule.minLevel, level)
  }

  /** `LogMessage`: the one call to the target, or none below the rule's MinLevel. */
  function WrapperLog(w: LoggerWrapper, m: LogMessage): (r: seq<Delivery>)
    reads w.rule
    ensures |r| <= 1
    ensures r != [] ==> r == [Delivery(w.target, m)]
  {
    if MessageLevels.AtMost(w.rule.minLevel, m.level) then [Delivery(w.target, m)] else []
  }

  /** Both tests of `IsTraceEnabled` and of the others agree: enabled means MinLevel at or below the level. */
  lemma EnabledAtMost(w: LoggerWrapper, level: MessageLevels.MessageLevel)
    requires level != MessageLevels.None
    ensures IsEnabled(w, level) <==> MessageLevels.AtMost(w.rule.minLevel, level)
  {
  }

  /** A level above an enabled level is enabled. */
  lemma EnabledUpward(w: LoggerWrapper, a: MessageLevels.MessageLevel, b: MessageLevels.MessageLevel)
    requires a != MessageLevels.None && b != MessageLevels.None
    requires IsEnabled(w, a) && MessageLevels.AtMost(a, b)
    ensures IsEnabled(w, b)
  {
  }

  /**
   * MinLevel None enables no level and forwards no message from Trace to
   * Fatal; a message whose own level is None still passes the gate.
   */
  lemma NoneSilences(w: LoggerWrapper, level: MessageLevels.MessageLevel, m: LogMessage)
    requires w.rule.minLevel == MessageLevels.None
    requires level != MessageLevels.None
    ensures !IsEnabled(w, level)
    ensures m.level != MessageLevels.None ==> WrapperLog(w, m) == []
    ensures m.level == MessageLevels.None ==> WrapperLog(w, m) == [Delivery(w.target, m)]
  {
  }

  /** A message is forwarded exactly when its level is enabled, and then unchanged. */
  lemma ForwardsIffEnabled(w: LoggerWrapper, m: LogMessage)
    requires m.level != MessageLevels.None
    ensures WrapperLog(w, m) == (if IsEnabled(w, m.level) then [Delivery(w.target, m)] else [])
  {
  }
}
