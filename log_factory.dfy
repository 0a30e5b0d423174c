/**
 * `LogFactory` (`Logging/LogFactory.cs`): builds one `LoggerWrapper` per
 * configured rule that names a target, caching the concrete loggers that
 * take a target configuration, and answers `GetLogger(name)` by the rules
 * whose pattern matches the name.
 *
 * The platform service's logger is the constant `platform`: `None` when
 * it is `null`, otherwise whether it implements `ILoggerConfig`. The type
 * table `InitializeLoggerTypeInfo` builds by reflection is the constant
 * `DefaultLoggerTypes`. A concrete logger made by `Activator.CreateInstance`
 * is told apart from the others by a creation serial.
 */
module LogFactories {
  import opened Wrappers
  import opened Strings
  import opened LoggingRules
  import opened LoggingTargets
  import opened LoggerWrappers

  /** The target type that selects the platform service's logger, compared ignoring case. */
  const PlatformLoggerType: string := "platform"

  /** A class carrying a `[Target]` attribute, and whether it implements `ILoggerConfig`. */
  datatype LoggerType = LoggerType(className: string, configurable: bool)

  /** The `[Target(...)]` attributes of the assembly's logger classes. */
  const DefaultLoggerTypes: map<string, LoggerType> := map[
    "File" := LoggerType("FileLogger", true),
    "Null" := LoggerType("NullLogger", false),
    "Platform" := LoggerType("PlatformLogger", false)]

  // ---------------------------------------------------------------------
  // Finding a rule's target
  // ---------------------------------------------------------------------

  /**
   * `Targets.Any(t => t.Name.Equals(writeTo))` and the matching `First`:
   * the scan throws at a target without a name before reaching a match.
   */
  datatype TargetSearch = Throws | Absent | Found(index: nat)

  function FindTarget(targets: seq<LoggingTarget>, writeTo: Option<string>): (r: TargetSearch)
    ensures r.Found? ==> r.index < |targets| && writeTo.Some? && targets[r.index].name == writeTo
    ensures r.Throws? ==> exists j :: 0 <= j < |targets| && targets[j].name.None? &&
                                      forall k :: 0 <= k < j ==> targets[k].name.Some? && targets[k].name != writeTo
    ensures r.Found? ==> forall j :: 0 <= j < r.index ==> targets[j].name.Some? && targets[j].name != writeTo
    ensures r.Absent? <==> forall j :: 0 <= j < |targets| ==> targets[j].name.Some? && targets[j].name != writeTo
    decreases |targets|
  {
    if |targets| == 0 then Absent
    else if targets[0].name.None? then Throws
    else if writeTo.Some? && targets[0].name == writeTo then Found(0)
    else
      var rest := FindTarget(targets[1..], writeTo);
      assert forall j :: 0 < j < |targets| ==> targets[j] == targets[1..][j - 1];
      match rest
      case Found(i) => Found(i + 1)
      case Throws => Throws
      case Absent => Absent
  }

  /** A target type the factory can make a logger for: the platform's, or a registered one. */
  predicate Resolves(targetType: Option<string>, types: map<string, LoggerType>) {
    targetType.Some? && (EqualsIgnoreCase(targetType.value, PlatformLoggerType) || targetType.value in types)
  }

  /** A rule the factory wires: its `WriteTo` names a target whose type resolves. */
  predicate Wires(rule: LoggingRule, targets: seq<LoggingTarget>, types: map<string, LoggerType>)
    reads rule
  {
    var search := FindTarget(targets, rule.writeTo);
    search.Found? && Resolves(targets[search.index].targetType, types)
  }

  // ---------------------------------------------------------------------
  // One rule of AddLoggerWrappers
  // ---------------------------------------------------------------------

  /** The factory's lists: wrappers, cached loggers by `WriteTo`, the configs handed out, loggers made. */
  datatype FactoryState = FactoryState(
    loggers: seq<LoggerWrapper>,
    concreteLoggers: map<string, Sink>,
    targetConfigs: map<Sink, LoggingTarget>,
    created: nat)

  /** The logger obtained for a target not yet cached, or an exception. */
  datatype Creation = Made(logger: Option<Sink>, configurable: bool, created: nat) | CreateFailed

  /**
   * The platform service's logger for a "platform" target (any case);
   * otherwise a new instance of the registered type, or an exception for
   * a `null` or unregistered type.
   */
  function Create(target: LoggingTarget, types: map<string, LoggerType>, platform: Option<bool>, created: nat): (c: Creation)
    ensures c.CreateFailed? <==> !Resolves(target.targetType, types)
    ensures c.Made? && c.logger.None? ==> platform.None?
    ensures c.Made? && c.logger == Some(PlatformSink) ==> platform.Some? && c.configurable == platform.value
    ensures c.Made? && c.logger.Some? && c.logger.value.ConcreteSink? ==>
              c.logger.value.serial == created && c.created == created + 1 &&
              target.targetType.value in types &&
              types[target.targetType.value] == LoggerType(c.logger.value.typeName, c.configurable)
    ensures c.Made? ==> c.logger != Some(NullSink) && c.created >= created
  {
    if target.targetType.Some? && EqualsIgnoreCase(target.targetType.value, PlatformLoggerType) then
      if platform.Some? then Made(Some(PlatformSink), platform.value, created) else Made(None, false, created)
    else if target.targetType.None? || target.targetType.value !in types then CreateFailed
    else
      var ty := types[target.targetType.value];
      Made(Some(ConcreteSink(ty.className, created)), ty.configurable, created + 1)
  }

  /**
   * One iteration of the `foreach` in `AddLoggerWrappers`: skip a rule
   * whose `WriteTo` names no target (or whose scan or creation throws);
   * otherwise reuse the logger cached for `WriteTo` or obtain one, cache
   * it with its target config when it is non-null and configurable, and
   * add a wrapper to it (or to the platform logger, or a `NullLogger`).
   */
  function Step(st: FactoryState, rule: LoggingRule, targets: seq<LoggingTarget>,
                types: map<string, LoggerType>, platform: Option<bool>): FactoryState
    reads rule
  {
    match FindTarget(targets, rule.writeTo)
    case Found(i) =>
      var key := rule.writeTo.value;
      if key in st.concreteLoggers then
        st.(loggers := st.loggers + [LoggerWrapper(rule, st.concreteLoggers[key])])
      else (
        match Create(targets[i], types, platform, st.created)
        case CreateFailed => st
        case Made(logger, configurable, created) =>
          var cached := logger.Some? && configurable;
          var sink := if logger.Some? then logger.value else if platform.Some? then PlatformSink else NullSink;
          FactoryState(
            st.loggers + [LoggerWrapper(rule, sink)],
            if cached then st.concreteLoggers[key := logger.value] else st.concreteLoggers,
            if cached then st.targetConfigs[logger.value := targets[i]] else st.targetConfigs,
            created))
    case _ => st
  }

  /** The whole `foreach`: the rules taken in configured order. */
  function AddedAll(st: FactoryState, rules: seq<LoggingRule>, targets: seq<LoggingTarget>,
                    types: map<string, LoggerType>, platform: Option<bool>): FactoryState
    reads set r | r in rules
  {
    if |rules| == 0 then st
    else
      assert forall r :: r in rules[..|rules| - 1] ==> r in rules;
      Step(AddedAll(st, rules[..|rules| - 1], targets, types, platform), rules[|rules| - 1], targets, types, platform)
  }

  /** The rules that get a wrapper, in configured order. */
  function WiredRules(rules: seq<LoggingRule>, targets: seq<LoggingTarget>, types: map<string, LoggerType>): seq<LoggingRule>
    reads set r | r in rules
  {
    if |rules| == 0 then []
    else
      assert forall r :: r in rules[..|rules| - 1] ==> r in rules;
      var last := rules[|rules| - 1];
      WiredRules(rules[..|rules| - 1], targets, types) + (if Wires(last, targets, types) then [last] else [])
  }

  /** The rules of a list of wrappers, in list order. */
  function RulesOf(ws: seq<LoggerWrapper>): (rs: seq<LoggingRule>)
    ensures |rs| == |ws| && forall i :: 0 <= i < |ws| ==> rs[i] == ws[i].rule
  {
    if |ws| == 0 then [] else [ws[0].rule] + RulesOf(ws[1..])
  }

  /** Every cached key names a target of this configuration whose type resolves. */
  predicate CacheConsistent(cache: map<string, Sink>, targets: seq<LoggingTarget>, types: map<string, LoggerType>) {
    forall k :: k in cache ==>
      var search := FindTarget(targets, Some(k));
      search.Found? && Resolves(targets[search.index].targetType, types)
  }

  /** A logger that implements `ILoggerConfig`. */
  predicate Configurable(s: Sink, types: map<string, LoggerType>, platform: Option<bool>) {
    match s
    case PlatformSink => platform == Some(true)
    case ConcreteSink(c, _) => exists t :: t in types && types[t] == LoggerType(c, true)
    case NullSink => false
  }

  /**
   * What the cache holds: only loggers implementing `ILoggerConfig`, each
   * with the target configuration it was given; only loggers already made.
   */
  predicate CacheConfigured(st: FactoryState, types: map<string, LoggerType>, platform: Option<bool>) {
    forall k :: k in st.concreteLoggers ==>
      var s := st.concreteLoggers[k];
      Configurable(s, types, platform) && s in st.targetConfigs && (s.ConcreteSink? ==> s.serial < st.created)
  }

  // ---------------------------------------------------------------------
  // What a step does
  // ---------------------------------------------------------------------

  /** A rule whose `WriteTo` names no target, or whose target scan throws, changes nothing. */
  lemma StepSkipsUnnamed(st: FactoryState, rule: LoggingRule, targets: seq<LoggingTarget>,
                         types: map<string, LoggerType>, platform: Option<bool>)
    requires !FindTarget(targets, rule.writeTo).Found?
    ensures Step(st, rule, targets, types, platform) == st
  {
  }

  /** A `WriteTo` already cached gets a wrapper around the cached logger; nothing else changes. */
  lemma StepReusesCached(st: FactoryState, rule: LoggingRule, targets: seq<LoggingTarget>,
                         types: map<string, LoggerType>, platform: Option<bool>)
    requires FindTarget(targets, rule.writeTo).Found?
    requires rule.writeTo.value in st.concreteLoggers
    ensures Step(st, rule, targets, types, platform) ==
            st.(loggers := st.loggers + [LoggerWrapper(rule, st.concreteLoggers[rule.writeTo.value])])
  {
  }

  /**
   * A fresh `WriteTo` is cached exactly when the logger obtained is
   * non-null and implements `ILoggerConfig`, and then with its target's
   * configuration; the wrapper added uses that logger, or falls back to
   * the platform logger and then a `NullLogger`.
   */
  lemma StepCachesConfigurable(st: FactoryState, rule: LoggingRule, targets: seq<LoggingTarget>,
                               types: map<string, LoggerType>, platform: Option<bool>)
    requires FindTarget(targets, rule.writeTo).Found?
    requires rule.writeTo.value !in st.concreteLoggers
    requires Resolves(targets[FindTarget(targets, rule.writeTo).index].targetType, types)
    ensures var i := FindTarget(targets, rule.writeTo).index;
            var c := Create(targets[i], types, platform, st.created);
            var r := Step(st, rule, targets, types, platform);
            (rule.writeTo.value in r.concreteLoggers <==> c.logger.Some? && c.configurable) &&
            (rule.writeTo.value in r.concreteLoggers ==>
               r.concreteLoggers[rule.writeTo.value] == c.logger.value && r.targetConfigs[c.logger.value] == targets[i]) &&
            |r.loggers| == |st.loggers| + 1 && r.loggers[..|st.loggers|] == st.loggers &&
            r.loggers[|st.loggers|].rule == rule &&
            r.loggers[|st.loggers|].target == (if c.logger.Some? then c.logger.value else NullSink)
  {
    var r := Step(st, rule, targets, types, platform);
    assert r.loggers[..|st.loggers|] == st.loggers;
  }

  /**
   * Under a cache that only holds keys of this configuration, a step adds
   * exactly one wrapper, for this rule, when the rule wires, and nothing
   * otherwise; the earlier wrappers stay as they were.
   */
  lemma StepWires(st: FactoryState, rule: LoggingRule, targets: seq<LoggingTarget>,
                  types: map<string, LoggerType>, platform: Option<bool>)
    requires CacheConsistent(st.concreteLoggers, targets, types)
    ensures var r := Step(st, rule, targets, types, platform);
            CacheConsistent(r.concreteLoggers, targets, types) &&
            |r.loggers| >= |st.loggers| && r.loggers[..|st.loggers|] == st.loggers &&
            RulesOf(r.loggers) == RulesOf(st.loggers) + (if Wires(rule, targets, types) then [rule] else [])
  {
    var r := Step(st, rule, targets, types, platform);
    var search := FindTarget(targets, rule.writeTo);
    if search.Found? {
      var key := rule.writeTo.value;
      assert Some(key) == rule.writeTo;
      if key !in st.concreteLoggers {
        var c := Create(targets[search.index], types, platform, st.created);
        if c.Made? {
          assert |r.loggers| == |st.loggers| + 1;
        }
      }
    }
    assert r.loggers[..|st.loggers|] == st.loggers;
  }

  /** A step keeps the cache to configured, `ILoggerConfig` loggers, and never drops or rebinds a cached key. */
  lemma StepKeepsCacheConfigured(st: FactoryState, rule: LoggingRule, targets: seq<LoggingTarget>,
                                 types: map<string, LoggerType>, platform: Option<bool>)
    requires CacheConfigured(st, types, platform)
    ensures var r := Step(st, rule, targets, types, platform);
            CacheConfigured(r, types, platform) && r.created >= st.created &&
            forall k :: k in st.concreteLoggers ==> k in r.concreteLoggers && r.concreteLoggers[k] == st.concreteLoggers[k]
  {
    var search := FindTarget(targets, rule.writeTo);
    if search.Found? && rule.writeTo.value !in st.concreteLoggers {
      var c := Create(targets[search.index], types, platform, st.created);
      if c.Made? && c.logger.Some? && c.configurable && c.logger.value.ConcreteSink? {
        var t := targets[search.index].targetType.value;
        assert t in types && types[t] == LoggerType(c.logger.value.typeName, true);
      }
    }
  }

  /**
   * `AddLoggerWrappers` over a cache holding only keys of this
   * configuration: the wrappers added are, in order, one for each rule
   * that wires, and the earlier wrappers stay in front.
   */
  lemma {:induction false} AddedAllWires(st: FactoryState, rules: seq<LoggingRule>, targets: seq<LoggingTarget>,
                                         types: map<string, LoggerType>, platform: Option<bool>)
    requires CacheConsistent(st.concreteLoggers, targets, types)
    ensures var r := AddedAll(st, rules, targets, types, platform);
            CacheConsistent(r.concreteLoggers, targets, types) &&
            |r.loggers| >= |st.loggers| && r.loggers[..|st.loggers|] == st.loggers &&
            RulesOf(r.loggers) == RulesOf(st.loggers) + WiredRules(rules, targets, types)
    decreases |rules|
  {
    if |rules| > 0 {
      var init := rules[..|rules| - 1];
      var last := rules[|rules| - 1];
      AddedAllWires(st, init, targets, types, platform);
      var mid := AddedAll(st, init, targets, types, platform);
      StepWires(mid, last, targets, types, platform);
      var r := Step(mid, last, targets, types, platform);
      assert r.loggers[..|st.loggers|] == mid.loggers[..|mid.loggers|][..|st.loggers|];
    }
  }

  /** Over all the rules, the cache keeps only configured `ILoggerConfig` loggers and never loses an entry. */
  lemma {:induction false} AddedAllKeepsCacheConfigured(st: FactoryState, rules: seq<LoggingRule>, targets: seq<LoggingTarget>,
                                                        types: map<string, LoggerType>, platform: Option<bool>)
    requires CacheConfigured(st, types, platform)
    ensures var r := AddedAll(st, rules, targets, types, platform);
            CacheConfigured(r, types, platform) &&
            forall k :: k in st.concreteLoggers ==> k in r.concreteLoggers && r.concreteLoggers[k] == st.concreteLoggers[k]
    decreases |rules|
  {
    if |rules| > 0 {
      var init := rules[..|rules| - 1];
      AddedAllKeepsCacheConfigured(st, init, targets, types, platform);
      StepKeepsCacheConfigured(AddedAll(st, init, targets, types, platform), rules[|rules| - 1], targets, types, platform);
    }
  }

  /** When every rule wires, every rule gets its wrapper, in order. */
  lemma {:induction false} AllRulesWired(rules: seq<LoggingRule>, targets: seq<LoggingTarget>, types: map<string, LoggerType>)
    requires forall i :: 0 <= i < |rules| ==> Wires(rules[i], targets, types)
    ensures WiredRules(rules, targets, types) == rules
    decreases |rules|
  {
    if |rules| > 0 {
      AllRulesWired(rules[..|rules| - 1], targets, types);
      assert rules[..|rules| - 1] + [rules[|rules| - 1]] == rules;
    }
  }

  /** Only wiring rules get a wrapper, each at most once and in configured order. */
  lemma {:induction false} WiredRulesSubsequence(rules: seq<LoggingRule>, targets: seq<LoggingTarget>, types: map<string, LoggerType>)
    ensures var w := WiredRules(rules, targets, types);
            |w| <= |rules| && forall i :: 0 <= i < |w| ==> w[i] in rules && Wires(w[i], targets, types)
    decreases |rules|
  {
    if |rules| > 0 {
      WiredRulesSubsequence(rules[..|rules| - 1], targets, types);
      assert forall r :: r in rules[..|rules| - 1] ==> r in rules;
    }
  }

  /**
   * A factory built from a configuration holds one wrapper per rule that
   * wires, in configured order, and caches only configured `ILoggerConfig`
   * loggers.
   */
  lemma FreshFactoryWires(config: LoggingConfig, types: map<string, LoggerType>, platform: Option<bool>)
    ensures var r := AddedAll(FactoryState([], map[], map[], 0), config.rules, config.targets, types, platform);
            RulesOf(r.loggers) == WiredRules(config.rules, config.targets, types) &&
            CacheConfigured(r, types, platform)
  {
    var st := FactoryState([], map[], map[], 0);
    AddedAllWires(st, config.rules, config.targets, types, platform);
    AddedAllKeepsCacheConfigured(st, config.rules, config.targets, types, platform);
    assert RulesOf(st.loggers) == [];
  }

  // ---------------------------------------------------------------------
  // LoadCustomConfig
  // ---------------------------------------------------------------------

  /**
   * One attempt to read the custom file: it is missing (`null` stream), or
   * reading throws, or the stream is deserialized (`None` when the JSON
   * does not parse, which `DeserializeLoggingConfig` reports as `null`).
   */
  datatype ReadOutcome = Missing | ReadFailed | Opened(config: Option<LoggingConfig>)

  /** What an attempt that did not throw returns. */
  function Settled(o: ReadOutcome): Option<LoggingConfig>
    requires !o.ReadFailed?
  {
    if o.Missing? then None else o.config
  }

  /**
   * `LoadCustomConfig(fileName, retryCount)`, where `read(k)` is what the
   * attempt with retry count `k` meets: a throwing attempt is retried with
   * the next count until the count reaches 2.
   */
  function LoadCustomConfig(read: nat -> ReadOutcome, retryCount: nat): Option<LoggingConfig>
    decreases if retryCount < 2 then 2 - retryCount else 0
  {
    match read(retryCount)
    case Missing => None
    case Opened(c) => c
    case ReadFailed => if retryCount >= 2 then None else LoadCustomConfig(read, retryCount + 1)
  }

  /** From retry count 0, only the attempts 0, 1 and 2 decide the result. */
  lemma AtMostThreeAttempts(read: nat -> ReadOutcome, read': nat -> ReadOutcome)
    requires read(0) == read'(0) && read(1) == read'(1) && read(2) == read'(2)
    ensures LoadCustomConfig(read, 0) == LoadCustomConfig(read', 0)
  {
    assert LoadCustomConfig(read, 2) == LoadCustomConfig(read', 2);
    assert LoadCustomConfig(read, 1) == LoadCustomConfig(read', 1);
  }

  /** The result is what the first attempt that does not throw returns. */
  lemma FirstSettledAttempt(read: nat -> ReadOutcome, k: nat)
    requires k <= 2 && !read(k).ReadFailed?
    requires forall j :: 0 <= j < k ==> read(j).ReadFailed?
    ensures LoadCustomConfig(read, 0) == Settled(read(k))
  {
    if k >= 1 {
      assert read(0).ReadFailed?;
    }
    if k == 2 {
      assert read(1).ReadFailed?;
    }
  }

  /** Three throwing attempts give `null`. */
  lemma ThreeFailuresGiveNull(read: nat -> ReadOutcome)
    requires read(0).ReadFailed? && read(1).ReadFailed? && read(2).ReadFailed?
    ensures LoadCustomConfig(read, 0).None?
  {
  }

  /**
   * `Initialize`'s choice of configuration: the built-in one (an empty
   * one when it did not deserialize), replaced by the custom file's when
   * its name is set and the file loads.
   */
  function ChosenConfig(builtin: Option<LoggingConfig>, read: nat -> ReadOutcome): (c: LoggingConfig)
    ensures builtin.None? ==> c == EmptyConfig()
    ensures builtin.Some? ==> c == builtin.value || LoadCustomConfig(read, 0) == Some(c)
    ensures builtin.Some? ==>
              var name := builtin.value.customLogFileName;
              var wanted := name.Some? && name.value != "" && LoadCustomConfig(read, 0).Some?;
              c == if wanted then LoadCustomConfig(read, 0).value else builtin.value
  {
    var config := if builtin.Some? then builtin.value else EmptyConfig();
    if config.customLogFileName.Some? && config.customLogFileName.value != "" then
      match LoadCustomConfig(read, 0)
      case Some(custom) => custom
      case None => config
    else config
  }

  /** The custom file is used exactly when the built-in names one and it loads. */
  lemma CustomConfigUsed(builtin: Option<LoggingConfig>, read: nat -> ReadOutcome)
    ensures var name := (if builtin.Some? then builtin.value else EmptyConfig()).customLogFileName;
            var wanted := name.Some? && name.value != "" && LoadCustomConfig(read, 0).Some?;
            ChosenConfig(builtin, read) ==
              if wanted then LoadCustomConfig(read, 0).value
              else if builtin.Some? then builtin.value else EmptyConfig()
  {
  }

  // ---------------------------------------------------------------------
  // GetLogger
  // ---------------------------------------------------------------------

  /** What `GetLogger` hands out. */
  datatype Choice =
    | Single(wrapper: LoggerWrapper)
    | Multi(name: Option<string>, members: seq<LoggerWrapper>)
    | PlatformChoice
    | NullChoice

  /** `Where(e => e.Rule.NameMatches(name))`, in list order. */
  function Matching(ws: seq<LoggerWrapper>, name: Option<string>): (ms: seq<LoggerWrapper>)
    reads Rules(ws)
    ensures Rules(ms) <= Rules(ws)
  {
    if |ws| == 0 then []
    else
      assert ws[0].rule in Rules(ws);
      assert Rules(ws[1..]) <= Rules(ws) by {
        forall i | 0 <= i < |ws| - 1 ensures ws[1..][i].rule in Rules(ws) {
          assert ws[1..][i] == ws[i + 1];
        }
      }
      (if ws[0].rule.NameMatches(name) then [ws[0]] else []) + Matching(ws[1..], name)
  }

  /** The index of the first wrapper with a Final rule, or -1. */
  function FirstFinal(ws: seq<LoggerWrapper>): (k: int)
    reads Rules(ws)
    ensures -1 <= k < |ws|
    ensures k >= 0 ==> ws[k].rule.final && forall j :: 0 <= j < k ==> !ws[j].rule.final
    ensures k < 0 ==> forall j :: 0 <= j < |ws| ==> !ws[j].rule.final
  {
    if |ws| == 0 then -1
    else
      assert ws[0].rule in Rules(ws);
      assert Rules(ws[1..]) <= Rules(ws) by {
        forall i | 0 <= i < |ws| - 1 ensures ws[1..][i].rule in Rules(ws) {
          assert ws[1..][i] == ws[i + 1];
        }
      }
      if ws[0].rule.final then 0
      else
        var k := FirstFinal(ws[1..]);
        assert forall j :: 0 < j < |ws| ==> ws[j] == ws[1..][j - 1];
        if k < 0 then -1 else k + 1
  }

  /** The matching wrappers are exactly those whose rule matches, in list order. */
  lemma {:induction false} MatchingSpec(ws: seq<LoggerWrapper>, name: Option<string>)
    ensures var ms := Matching(ws, name);
            |ms| <= |ws| &&
            (forall w :: w in ms <==> w in ws && w.rule.NameMatches(name)) &&
            (ms == [] <==> forall i :: 0 <= i < |ws| ==> !ws[i].rule.NameMatches(name))
    decreases |ws|
  {
    if |ws| > 0 {
      MatchingSpec(ws[1..], name);
      assert ws == [ws[0]] + ws[1..];
      assert forall i :: 0 < i < |ws| ==> ws[i] == ws[1..][i - 1];
    }
  }

  /** Filtering a list is filtering its two parts in turn: the order is kept. */
  lemma {:induction false} MatchingAppend(a: seq<LoggerWrapper>, b: seq<LoggerWrapper>, name: Option<string>)
    ensures Matching(a + b, name) == Matching(a, name) + Matching(b, name)
    decreases |a|
  {
    if |a| > 0 {
      assert (a + b)[1..] == a[1..] + b;
      MatchingAppend(a[1..], b, name);
    } else {
      assert a + b == b;
    }
  }

  /** The position of the first wrapper whose rule matches `name` and is Final, or -1. */
  function FirstFinalMatchIndex(ws: seq<LoggerWrapper>, name: Option<string>): (i: int)
    reads Rules(ws)
    ensures -1 <= i < |ws|
    ensures i >= 0 ==> ws[i].rule.NameMatches(name) && ws[i].rule.final
    ensures i >= 0 ==> forall j :: 0 <= j < i ==> !(ws[j].rule.NameMatches(name) && ws[j].rule.final)
    ensures i < 0 ==> forall j :: 0 <= j < |ws| ==> !(ws[j].rule.NameMatches(name) && ws[j].rule.final)
  {
    if |ws| == 0 then -1
    else
      assert ws[0].rule in Rules(ws);
      assert Rules(ws[1..]) <= Rules(ws) by {
        forall i | 0 <= i < |ws| - 1 ensures ws[1..][i].rule in Rules(ws) {
          assert ws[1..][i] == ws[i + 1];
        }
      }
      if ws[0].rule.NameMatches(name) && ws[0].rule.final then 0
      else
        var k := FirstFinalMatchIndex(ws[1..], name);
        assert forall j :: 0 < j < |ws| ==> ws[j] == ws[1..][j - 1];
        if k < 0 then -1 else k + 1
  }

  /** The first Final wrapper among the matches is the first wrapper that matches and is Final. */
  lemma {:induction false} FirstFinalMatch(ws: seq<LoggerWrapper>, name: Option<string>)
    ensures var ms := Matching(ws, name);
            var i := FirstFinalMatchIndex(ws, name);
            (FirstFinal(ms) >= 0 <==> i >= 0) && (i >= 0 ==> ms[FirstFinal(ms)] == ws[i])
    decreases |ws|
  {
    if |ws| > 0 {
      FirstFinalMatch(ws[1..], name);
      var ms := Matching(ws, name);
      var rest := Matching(ws[1..], name);
      var k' := FirstFinal(rest);
      var i' := FirstFinalMatchIndex(ws[1..], name);
      if ws[0].rule.NameMatches(name) {
        assert ms == [ws[0]] + rest;
        assert ms[0] == ws[0] && ms[1..] == rest;
        if !ws[0].rule.final {
          assert FirstFinal(ms) == (if k' < 0 then -1 else k' + 1);
          if i' >= 0 {
            assert ms[k' + 1] == rest[k'];
          }
        }
      } else {
        assert ms == rest;
      }
    }
  }

  // ---------------------------------------------------------------------
  // The factory
  // ---------------------------------------------------------------------

  class LogFactory {
    var loggers: seq<LoggerWrapper>
    var concreteLoggers: map<string, Sink>
    var targetConfigs: map<Sink, LoggingTarget>
    var created: nat
    var loggerTypes: map<string, LoggerType>
    const platform: Option<bool>

    /** The lists `AddLoggerWrappers` changes. */
    function State(): FactoryState
      reads this
    {
      FactoryState(loggers, concreteLoggers, targetConfigs, created)
    }

    /**
     * The private constructor's `Initialize`: the type table, then the
     * chosen configuration's rules added to empty lists. Every path of
     * `Initialize` logs through the platform logger before adding the
     * rules, so it needs one.
     */
    constructor (platform: Option<bool>, builtin: Option<LoggingConfig>, read: nat -> ReadOutcome)
      requires platform.Some?
      ensures this.platform == platform && loggerTypes == DefaultLoggerTypes
      ensures var config := ChosenConfig(builtin, read);
              State() == AddedAll(FactoryState([], map[], map[], 0), config.rules, config.targets, DefaultLoggerTypes, platform)
    {
      this.platform := platform;
      loggers := [];
      concreteLoggers := map[];
      targetConfigs := map[];
      created := 0;
      loggerTypes := DefaultLoggerTypes;
      new;
      AddLoggerWrappers(ChosenConfig(builtin, read));
    }

    /** `AddLoggerWrappers`: each rule in turn, as `Step` says. */
    method AddLoggerWrappers(config: LoggingConfig)
      modifies this`loggers, this`concreteLoggers, this`targetConfigs, this`created
      ensures State() == AddedAll(old(State()), config.rules, config.targets, loggerTypes, platform)
    {
      var rules := config.rules;
      var targets := config.targets;
      ghost var st0 := State();
      for i := 0 to |rules|
        invariant State() == AddedAll(st0, rules[..i], targets, loggerTypes, platform)
      {
        assert rules[..i + 1][..i] == rules[..i];
        AddWrapper(rules[i], targets);
      }
      assert rules[..|rules|] == rules;
    }

    /** The body of the `foreach` for one rule (the `try` block; its `catch` is the skip). */
    method AddWrapper(rule: LoggingRule, targets: seq<LoggingTarget>)
      modifies this`loggers, this`concreteLoggers, this`targetConfigs, this`created
      ensures State() == Step(old(State()), rule, targets, loggerTypes, platform)
    {
      var search := FindTarget(targets, rule.writeTo);
      if search.Found? {
        var key := rule.writeTo.value;
        if key in concreteLoggers {
          loggers := loggers + [LoggerWrapper(rule, concreteLoggers[key])];
        } else {
          var c := Create(targets[search.index], loggerTypes, platform, created);
          if c.Made? {
            var sink := if c.logger.Some? then c.logger.value else if platform.Some? then PlatformSink else NullSink;
            if c.logger.Some? && c.configurable {
              targetConfigs := targetConfigs[c.logger.value := targets[search.index]];
              concreteLoggers := concreteLoggers[key := c.logger.value];
            }
            loggers := loggers + [LoggerWrapper(rule, sink)];
            created := c.created;
          }
        }
      }
    }

    /**
     * `GetLogger(name)`: the first matching wrapper whose rule is Final,
     * else a `MultiLogger` named `name` over all matching wrappers, else
     * the platform logger, else a `NullLogger`.
     */
    function GetLogger(name: Option<string>): (r: Choice)
      reads this, Rules(loggers)
      ensures r.Multi? ==> r.name == name && r.members != []
    {
      var ms := Matching(loggers, name);
      if |ms| > 0 then
        var k := FirstFinal(ms);
        if k >= 0 then Single(ms[k]) else Multi(name, ms)
      else if platform.Some? then PlatformChoice
      else NullChoice
    }
  }

  /** No matching rule: the platform logger, or a `NullLogger` when there is none. */
  lemma GetLoggerFallsBack(f: LogFactory, name: Option<string>)
    requires forall i :: 0 <= i < |f.loggers| ==> !f.loggers[i].rule.NameMatches(name)
    ensures f.GetLogger(name) == if f.platform.Some? then PlatformChoice else NullChoice
  {
    MatchingSpec(f.loggers, name);
  }

  /**
   * Some matching rule is Final exactly when a single wrapper comes back,
   * and it is the first wrapper in registration order that matches and is Final.
   */
  lemma GetLoggerFinalWins(f: LogFactory, name: Option<string>)
    ensures f.GetLogger(name).Single? <==>
              exists i :: 0 <= i < |f.loggers| && f.loggers[i].rule.NameMatches(name) && f.loggers[i].rule.final
    ensures f.GetLogger(name).Single? ==>
              var w := f.GetLogger(name).wrapper;
              w.rule.NameMatches(name) && w.rule.final &&
              exists i :: 0 <= i < |f.loggers| && f.loggers[i] == w &&
                          forall j :: 0 <= j < i ==> !(f.loggers[j].rule.NameMatches(name) && f.loggers[j].rule.final)
  {
    MatchingSpec(f.loggers, name);
    FirstFinalMatch(f.loggers, name);
    var i := FirstFinalMatchIndex(f.loggers, name);
    if i >= 0 {
      assert f.GetLogger(name) == Single(f.loggers[i]);
    }
  }

  /**
   * Matches but none Final: a multi-logger named `name` over all the
   * matching wrappers, in registration order, none of them Final.
   */
  lemma GetLoggerMulti(f: LogFactory, name: Option<string>)
    requires exists i :: 0 <= i < |f.loggers| && f.loggers[i].rule.NameMatches(name)
    requires forall i :: 0 <= i < |f.loggers| && f.loggers[i].rule.NameMatches(name) ==> !f.loggers[i].rule.final
    ensures f.GetLogger(name) == Multi(name, Matching(f.loggers, name))
    ensures forall w :: w in f.GetLogger(name).members <==> w in f.loggers && w.rule.NameMatches(name)
  {
    MatchingSpec(f.loggers, name);
    FirstFinalMatch(f.loggers, name);
  }
}
