/**
 * `LoggingRule` (`Logging/Model/LoggingRule.cs`): a rule names the loggers
 * it applies to with a pattern that may hold '*' wildcards. Setting `Name`
 * parses the pattern into a match mode and an argument; `NameMatches`
 * tests a logger name against them.
 */
module LoggingRules {
  import opened Wrappers
  import opened Strings
  import MessageLevels

  /** The match modes, `All` first: a fresh rule's mode. */
  datatype MatchMode = All | NoMatch | Equals | StartsWith | EndsWith | Contains

  /** The mode and argument a parsed pattern yields. */
  datatype Matcher = Matcher(mode: MatchMode, argument: Option<string>)

  /**
   * The `Name` setter's parsing of `value`, given the matcher it replaces:
   * no '*' is an exact name; a single '*' is a prefix test when text comes
   * before it, else a suffix test when text comes after it, else ("*")
   * nothing changes; several stars with one at each end are a substring
   * test on what lies between; any other pattern matches nothing.
   */
  function Parsed(value: string, previous: Matcher): (m: Matcher)
    ensures m == previous || (m.mode != All && m.argument.Some?)
  {
    var firstPos := IndexOf(value, '*');
    var lastPos := LastIndexOf(value, '*');
    if firstPos < 0 then Matcher(Equals, Some(value))
    else if firstPos == lastPos then
      var before := value[..firstPos];
      var after := value[firstPos + 1..];
      if |before| > 0 then Matcher(StartsWith, Some(before))
      else if |after| > 0 then Matcher(EndsWith, Some(after))
      else previous
    else if firstPos == 0 && lastPos == |value| - 1 then Matcher(Contains, Some(value[1..|value| - 1]))
    else Matcher(NoMatch, Some(""))
  }

  /** The `switch` of `NameMatches`, for a non-null logger name. */
  function Test(m: Matcher, loggerName: string): bool {
    match m.mode
    case All => true
    case NoMatch => false
    case Equals => m.argument == Some(loggerName)
    case StartsWith => m.argument.Some? && Strings.StartsWith(loggerName, m.argument.value)
    case EndsWith => m.argument.Some? && Strings.EndsWith(loggerName, m.argument.value)
    case Contains => m.argument.Some? && Strings.Contains(loggerName, m.argument.value)
  }

  class LoggingRule {
    var name: Option<string>
    var matcher: Matcher
    var minLevel: MessageLevels.MessageLevel
    var final: bool
    var writeTo: Option<string>

    /** A fresh rule: no name, mode `All`, every property at its default. */
    constructor ()
      ensures name.None? && matcher == Matcher(All, None)
      ensures minLevel == MessageLevels.Trace && !final && writeTo.None?
    {
      name := None;
      matcher := Matcher(All, None);
      minLevel := MessageLevels.Trace;
      final := false;
      writeTo := None;
    }

    /**
     * The `Name` setter. The name is stored first; a `null` name then makes
     * `IndexOf` throw (`threw`) before the matcher is touched.
     */
    method SetName(value: Option<string>) returns (threw: bool)
      modifies this`name, this`matcher
      ensures name == value
      ensures threw <==> value.None?
      ensures value.None? ==> matcher == old(matcher)
      ensures value.Some? ==> matcher == Parsed(value.value, old(matcher))
    {
      name := value;
      if value.None? {
        return true;
      }
      var s := value.value;
      var firstPos := IndexOf(s, '*');
      var lastPos := LastIndexOf(s, '*');
      threw := false;
      if firstPos < 0 {
        matcher := Matcher(Equals, value);
        return;
      }
      if firstPos == lastPos {
        var before := s[..firstPos];
        var after := s[firstPos + 1..];
        if |before| > 0 {
          matcher := Matcher(StartsWith, Some(before));
          return;
        }
        if |after| > 0 {
          matcher := Matcher(EndsWith, Some(after));
          return;
        }
        return;
      }
      if firstPos == 0 && lastPos == |s| - 1 {
        matcher := Matcher(Contains, Some(s[1..|s| - 1]));
        return;
      }
      matcher := Matcher(NoMatch, Some(""));
    }

    /** `NameMatches`: never for a rule without a name or a `null` logger name. */
    function NameMatches(loggerName: Option<string>): (r: bool)
      reads this
      ensures r ==> name.Some? && loggerName.Some?
    {
      name.Some? && loggerName.Some? && Test(matcher, loggerName.value)
    }
  }

  // ---------------------------------------------------------------------
  // What each kind of pattern matches
  // ---------------------------------------------------------------------

  /** A pattern without '*' matches exactly the ordinal-equal name. */
  lemma ExactPattern(p: string, previous: Matcher, loggerName: string)
    requires '*' !in p
    ensures Test(Parsed(p, previous), loggerName) <==> loggerName == p
  {
  }

  /** `a*b` with text before the only star tests the prefix `a`; `b` is ignored. */
  lemma PrefixPattern(a: string, b: string, previous: Matcher, loggerName: string)
    requires '*' !in a && '*' !in b && |a| > 0
    ensures Test(Parsed(a + "*" + b, previous), loggerName) <==> Strings.StartsWith(loggerName, a)
  {
    var p := a + "*" + b;
    assert p[|a|] == '*' && p[..|a|] == a;
    assert p[|a| + 1..] == b;
  }

  /** `*b` with text after the only star tests the suffix `b`. */
  lemma SuffixPattern(b: string, previous: Matcher, loggerName: string)
    requires '*' !in b && |b| > 0
    ensures Test(Parsed("*" + b, previous), loggerName) <==> Strings.EndsWith(loggerName, b)
  {
    var p := "*" + b;
    assert p[0] == '*' && p[1..] == b;
  }

  /** "*" leaves the matcher as it was. */
  lemma LoneStar(previous: Matcher)
    ensures Parsed("*", previous) == previous
  {
    assert "*"[0] == '*';
  }

  /**
   * `*m*` (two stars or more, one at each end) tests whether the name
   * contains `m`, inner stars taken literally.
   */
  lemma ContainsPattern(m: string, previous: Matcher, loggerName: string)
    ensures Test(Parsed("*" + m + "*", previous), loggerName) <==> Strings.Contains(loggerName, m)
  {
    var p := "*" + m + "*";
    assert p[0] == '*' && p[|p| - 1] == '*';
    assert p[1..|p| - 1] == m;
  }

  /** "**" matches every name. */
  lemma DoubleStarMatchesAll(previous: Matcher, loggerName: string)
    ensures Test(Parsed("**", previous), loggerName)
  {
    ContainsPattern("", previous, loggerName);
    assert "*" + "" + "*" == "**";
    assert OccursAt(loggerName, "", 0);
  }

  /** Two or more stars without one at each end match nothing. */
  lemma MisplacedStars(p: string, i: int, j: int, previous: Matcher, loggerName: string)
    requires 0 <= i < j < |p| && p[i] == '*' && p[j] == '*'
    requires p[0] != '*' || p[|p| - 1] != '*'
    ensures !Test(Parsed(p, previous), loggerName)
  {
    var firstPos := IndexOf(p, '*');
    var lastPos := LastIndexOf(p, '*');
    assert firstPos != lastPos;
  }

  /** A fresh rule named "*" keeps the default mode `All` and matches every non-null name. */
  lemma FreshRuleStar(loggerName: string)
    ensures Test(Parsed("*", Matcher(All, None)), loggerName)
  {
    LoneStar(Matcher(All, None));
  }
}
