/**
 * The logging configuration (`Logging/Model/LoggingTarget.cs`,
 * `Logging/Model/LoggingConfig.cs`): the targets a rule may write to and
 * the configuration the factory reads its rules and targets from.
 *
 * Strings the JSON may leave out are `Option`s (`None` is `null`).
 */
module LoggingTargets {
  import opened Wrappers
  import opened LoggingRules

  /**
   * A target: its name (the key rules refer to by `WriteTo`), its type
   * ("File", "Null", "Platform" in any case), the layout its messages are
   * rendered with, and the file and archive settings `FileLogger` uses.
   */
  datatype LoggingTarget = LoggingTarget(
    name: Option<string>,
    targetType: Option<string>,
    layout: Option<string>,
    fileName: Option<string>,
    archiveAboveSize: int,
    archiveFileName: Option<string>,
    maxArchiveFiles: int,
    internalStorage: bool)

  /** The rules in their configured order, the targets, and the custom file to look for. */
  datatype LoggingConfig = LoggingConfig(
    rules: seq<LoggingRule>,
    targets: seq<LoggingTarget>,
    customLogFileName: Option<string>)

  /** `new LoggingConfig()`: no rules, no targets, no custom file name. */
  function EmptyConfig(): (c: LoggingConfig)
    ensures c.rules == [] && c.targets == [] && c.customLogFileName.None?
  {
    LoggingConfig([], [], None)
  }
}
