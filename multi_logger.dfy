/**
 * `MultiLogger` (`Logging/Logger/MultiLogger.cs`): the logger `GetLogger`
 * returns when several non-final rules match a name. It keeps its wrappers
 * in a list, answers `Is*Enabled` for any of them, and fans a message out
 * to every wrapper whose rule lets its level through, after stamping the
 * message with its own name.
 */
module MultiLoggers {
  import opened Wrappers
  import MessageLevels
  import opened LogMessages
  import opened LoggerWrappers

  /** Some wrapper of `ws` has `level` enabled (LINQ `Any`). */
  function AnyEnabled(ws: seq<LoggerWrapper>, level: MessageLevels.MessageLevel): (r: bool)
    requires level != MessageLevels.None
    reads Rules(ws)
    ensures r <==> exists i :: 0 <= i < |ws| && IsEnabled(ws[i], level)
  {
    if |ws| == 0 then false
    else
      assert ws[0].rule in Rules(ws);
      assert Rules(ws[1..]) <= Rules(ws) by {
        forall i | 0 <= i < |ws| - 1 ensures ws[1..][i].rule in Rules(ws) {
          assert ws[1..][i] == ws[i + 1];
        }
      }
      var r := IsEnabled(ws[0], level) || AnyEnabled(ws[1..], level);
      assert forall i :: 0 < i < |ws| ==> ws[i] == ws[1..][i - 1];
      r
  }

  /** The calls each wrapper's `LogMessage` makes, wrapper by wrapper in list order. */
  function WrapperLogs(ws: seq<LoggerWrapper>, m: LogMessage): seq<Delivery>
    reads Rules(ws)
  {
    if |ws| == 0 then []
    else
      assert ws[|ws| - 1].rule in Rules(ws);
      assert forall i :: 0 <= i < |ws| - 1 ==> ws[..|ws| - 1][i] == ws[i];
      WrapperLogs(ws[..|ws| - 1], m) + WrapperLog(ws[|ws| - 1], m)
  }

  /** `List.Remove`: the list without its first occurrence of `w`, if any. */
  function RemoveFirst(ws: seq<LoggerWrapper>, w: LoggerWrapper): seq<LoggerWrapper> {
    if |ws| == 0 then []
    else if ws[0] == w then ws[1..]
    else [ws[0]] + RemoveFirst(ws[1..], w)
  }

  /** `Remove` drops one occurrence of a listed wrapper, and changes nothing otherwise. */
  lemma {:induction false} RemoveFirstOne(ws: seq<LoggerWrapper>, w: LoggerWrapper)
    ensures w in ws ==> multiset(RemoveFirst(ws, w)) == multiset(ws) - multiset{w}
    ensures w !in ws ==> RemoveFirst(ws, w) == ws
    decreases |ws|
  {
    if |ws| > 0 {
      RemoveFirstOne(ws[1..], w);
      assert ws == [ws[0]] + ws[1..];
      if ws[0] != w && w in ws {
        assert w in ws[1..];
      }
    }
  }

  class MultiLogger {
    const name: Option<string>
    var loggers: seq<LoggerWrapper>

    constructor (name: Option<string>)
      ensures this.name == name && loggers == []
    {
      this.name := name;
      loggers := [];
    }

    /** `Count`: how many wrappers the list holds. */
    function Count(): nat
      reads this
    {
      |loggers|
    }

    /** `Add` appends the wrapper. */
    method Add(w: LoggerWrapper)
      modifies this`loggers
      ensures loggers == old(loggers) + [w]
      ensures Count() == old(Count()) + 1
    {
      loggers := loggers + [w];
    }

    /** `Remove` removes the first occurrence of the wrapper. */
    method Remove(w: LoggerWrapper)
      modifies this`loggers
      ensures loggers == RemoveFirst(old(loggers), w)
      ensures w in old(loggers) ==> Count() == old(Count()) - 1
    {
      RemoveFirstOne(loggers, w);
      if w in loggers {
        assert |multiset(RemoveFirst(loggers, w))| == |multiset(loggers)| - 1;
      }
      loggers := RemoveFirst(loggers, w);
    }

    /** `Is<level>Enabled`: some wrapper has the level enabled; never for an empty list. */
    function IsEnabled(level: MessageLevels.MessageLevel): (r: bool)
      requires level != MessageLevels.None
      reads this, Rules(loggers)
      ensures loggers == [] ==> !r
    {
      AnyEnabled(loggers, level)
    }

    /**
     * `LogMessage`: stamp the message with this logger's name, then pass it
     * to the target of each wrapper whose rule's MinLevel is at or below
     * its level, in list order.
     */
    method LogMessage(m: LogMessages.LogMessage) returns (stamped: LogMessages.LogMessage, deliveries: seq<Delivery>)
      ensures stamped == m.(loggerName := name)
      ensures deliveries == WrapperLogs(loggers, stamped)
    {
      stamped := m.(loggerName := name);
      deliveries := [];
      var ws := loggers;
      for i := 0 to |ws|
        invariant deliveries == WrapperLogs(ws[..i], stamped)
      {
        var w := ws[i];
        assert ws[..i + 1][..i] == ws[..i];
        if MessageLevels.AtMost(w.rule.minLevel, stamped.level) {
          deliveries := deliveries + [Delivery(w.target, stamped)];
        }
      }
      assert ws[..|ws|] == ws;
    }
  }

  /** Fanning out to a list is fanning out to its two halves in turn. */
  lemma {:induction false} WrapperLogsAppend(a: seq<LoggerWrapper>, b: seq<LoggerWrapper>, m: LogMessage)
    ensures WrapperLogs(a + b, m) == WrapperLogs(a, m) + WrapperLogs(b, m)
    decreases |b|
  {
    if |b| == 0 {
      assert a + b == a;
    } else {
      var b' := b[..|b| - 1];
      assert (a + b)[..|a + b| - 1] == a + b';
      WrapperLogsAppend(a, b', m);
    }
  }

  /**
   * The fan-out is, wrapper by wrapper, one delivery of the stamped message
   * to each wrapper's target exactly when its rule lets the level through.
   */
  lemma {:induction false} WrapperLogsDeliveries(ws: seq<LoggerWrapper>, m: LogMessage)
    ensures forall d :: d in WrapperLogs(ws, m) ==> d.message == m
    ensures WrapperLogs(ws, m) == [] <==> forall i :: 0 <= i < |ws| ==> !MessageLevels.AtMost(ws[i].rule.minLevel, m.level)
    ensures |WrapperLogs(ws, m)| <= |ws|
    decreases |ws|
  {
    if |ws| > 0 {
      var init := ws[..|ws| - 1];
      WrapperLogsDeliveries(init, m);
      assert forall i :: 0 <= i < |ws| - 1 ==> init[i] == ws[i];
    }
  }

  /**
   * For a level with an `Is*Enabled` query, the multi-logger delivers a
   * message of that level to somebody exactly when it reports the level enabled.
   */
  lemma DeliversIffEnabled(ws: seq<LoggerWrapper>, m: LogMessage)
    requires m.level != MessageLevels.None
    ensures WrapperLogs(ws, m) != [] <==> AnyEnabled(ws, m.level)
  {
    WrapperLogsDeliveries(ws, m);
    forall i | 0 <= i < |ws|
      ensures IsEnabled(ws[i], m.level) <==> MessageLevels.AtMost(ws[i].rule.minLevel, m.level)
    {
      EnabledAtMost(ws[i], m.level);
    }
  }
}
