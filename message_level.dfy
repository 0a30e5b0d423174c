/**
 * `MessageLevel` (`Logging/Model/MessageLevel.cs`): the severities in
 * increasing order, compared through their underlying integer values.
 */
module MessageLevels {

  datatype MessageLevel = Trace | Debug | Info | Warn | Error | Fatal | None

  /** The enumeration's underlying value: Trace = 0 up to None = 6. */
  function Ordinal(l: MessageLevel): nat {
    match l
    case Trace => 0
    case Debug => 1
    case Info => 2
    case Warn => 3
    case Error => 4
    case Fatal => 5
    case None => 6
  }

  /** `a <= b` on the enumeration. */
  predicate AtMost(a: MessageLevel, b: MessageLevel) {
    Ordinal(a) <= Ordinal(b)
  }

  /** `MessageLevel.ToString()`. */
  function LevelName(l: MessageLevel): string {
    match l
    case Trace => "Trace"
    case Debug => "Debug"
    case Info => "Info"
    case Warn => "Warn"
    case Error => "Error"
    case Fatal => "Fatal"
    case None => "None"
  }

  /** `MessageLevel.ToString().Substring(0, 1)`, the letter a log line shows. */
  function LevelLetter(l: MessageLevel): (r: string)
    ensures |r| == 1
  {
    LevelName(l)[..1]
  }

  /** The ordering is a total order: the ordinal tells the levels apart. */
  lemma OrdinalInjective(a: MessageLevel, b: MessageLevel)
    ensures Ordinal(a) == Ordinal(b) <==> a == b
  {
  }

  /** As the enumeration's own comment demands, no two levels share a first letter. */
  lemma LevelLetterInjective(a: MessageLevel, b: MessageLevel)
    ensures LevelLetter(a) == LevelLetter(b) <==> a == b
  {
    if a != b {
      assert LevelLetter(a)[0] != LevelLetter(b)[0];
    }
  }
}
