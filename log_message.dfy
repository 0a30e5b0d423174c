/**
 * `LogMessage` (`Logging/Model/LogMessage.cs`): one log event and its
 * rendering through a layout such as "${date} ${level} ${message}". The
 * rendering is a chain of `StringBuilder.Replace` calls, one per option,
 * in a fixed order; a `null` value replaces its option by nothing.
 *
 * The main result, `PipelineRendersLayout`, says what that chain computes:
 * for a layout made of literal text and options (`Piece`s), and values
 * that do not themselves contain '$', the chain replaces each known option
 * by its value and leaves every other piece as it is.
 */
module LogMessages {
  import opened Wrappers
  import opened Strings
  import MessageLevels
  import opened Exceptions

  /** A `DateTime`, by its calendar fields. */
  datatype DateTime = DateTime(year: nat, month: nat, day: nat, hour: nat, minute: nat, second: nat, millisecond: nat)

  datatype LogMessage = LogMessage(
    id: int,
    message: Option<string>,
    exception: Option<Exception>,
    application: Option<string>,
    applicationVersion: Option<string>,
    timestamp: DateTime,
    userId: Option<string>,
    deviceId: Option<string>,
    level: MessageLevels.MessageLevel,
    memberName: Option<string>,
    sourceFile: Option<string>,
    sourceLineNumber: int,
    loggerName: Option<string>)

  /** The text of the format option named `name`: "${name}". */
  function Token(name: string): (t: string)
    ensures |t| == |name| + 3 && t[0] == '$' && t[1] == '{' && t[|t| - 1] == '}'
  {
    "${" + name + "}"
  }

  const OptionUserId := "userid"
  const OptionApplicationName := "application.name"
  const OptionApplicationVersion := "application.version"
  const OptionDeviceId := "device.id"
  const OptionMessage := "message"
  const OptionLevel := "level"
  const OptionDate := "date"
  const OptionMemberName := "membername"
  const OptionSourceFile := "sourcefile"
  const OptionSourceFullFile := "sourcefullfile"
  const OptionSourceLineNumber := "sourcelinenumber"
  const OptionLoggerName := "loggername"
  const OptionExceptionMsg := "exception.message"
  const OptionExceptionStacktrace := "exception.stacktrace"

  // ---------------------------------------------------------------------
  // The values an event supplies
  // ---------------------------------------------------------------------

  /** `n` in decimal, left-padded with zeros to at least `w` digits. */
  function Pad(n: nat, w: nat): (r: string)
    ensures |r| >= w
    ensures forall i :: 0 <= i < |r| ==> '0' <= r[i] <= '9'
  {
    var d := NatToString(n);
    if |d| >= w then d else seq(w - |d|, _ => '0') + d
  }

  /** `Timestamp.ToString("MM/dd/yyyy HH:mm:ss:fff")`. */
  function DateText(t: DateTime): (r: string)
    ensures '$' !in r
  {
    var parts := [Pad(t.month, 2), "/", Pad(t.day, 2), "/", Pad(t.year, 4), " ",
                  Pad(t.hour, 2), ":", Pad(t.minute, 2), ":", Pad(t.second, 2), ":", Pad(t.millisecond, 3)];
    assert forall k :: 0 <= k < |parts| ==> '$' !in parts[k];
    ConcatFree(parts, '$');
    Concat(parts)
  }

  lemma {:induction false} ConcatFree(parts: seq<string>, c: char)
    requires forall k :: 0 <= k < |parts| ==> c !in parts[k]
    ensures c !in Concat(parts)
  {
    if |parts| > 0 {
      ConcatFree(parts[1..], c);
    }
  }

  /** The separators `${sourcefile}` strips a path up to. */
  const PathSeparators: set<char> := {'\\', '/'}

  /** The file name of `path`: what follows its last '\' or '/'. */
  function SourceFileName(path: string): (r: string)
    ensures EndsWith(path, r)
    ensures forall i :: 0 <= i < |r| ==> r[i] !in PathSeparators
  {
    var k := LastIndexOfAny(path, PathSeparators);
    path[k + 1..]
  }

  /** An option and the text that replaces it. */
  datatype Substitution = Substitution(name: string, value: string)

  /** The substitutions pairing each option name with its replacement text. */
  function Zip(names: seq<string>, values: seq<string>): (r: seq<Substitution>)
    requires |names| == |values|
    ensures |r| == |names|
    ensures forall k :: 0 <= k < |r| ==> r[k] == Substitution(names[k], values[k])
  {
    seq(|names|, k requires 0 <= k < |names| => Substitution(names[k], values[k]))
  }

  function ExceptionMessage(e: Option<Exception>): string {
    match e
    case None => ""
    case Some(x) => "Exception: " + x.message
  }

  function ExceptionStackTrace(e: Option<Exception>): string {
    match e
    case None => ""
    case Some(x) => "StackTrace: " + x.stackTrace
  }

  /** The options `ToString(format)` replaces, in the order it replaces them. */
  const MessageOptions: seq<string> :=
    [OptionUserId, OptionApplicationName, OptionApplicationVersion, OptionDeviceId, OptionMessage,
     OptionLevel, OptionDate, OptionMemberName, OptionSourceFullFile, OptionSourceFile,
     OptionSourceLineNumber, OptionLoggerName, OptionExceptionMsg, OptionExceptionStacktrace]

  /** The event's text for each of `MessageOptions`; a `null` value is empty. */
  function MessageValues(m: LogMessage): (r: seq<string>)
    ensures |r| == |MessageOptions|
  {
    [ m.userId.GetOr(""),
      m.application.GetOr(""),
      m.applicationVersion.GetOr(""),
      m.deviceId.GetOr(""),
      m.message.GetOr(""),
      MessageLevels.LevelLetter(m.level),
      DateText(m.timestamp),
      m.memberName.GetOr(""),
      m.sourceFile.GetOr(""),
      if m.sourceFile.None? then "" else SourceFileName(m.sourceFile.value),
      IntToString(m.sourceLineNumber),
      m.loggerName.GetOr(""),
      ExceptionMessage(m.exception),
      ExceptionStackTrace(m.exception) ]
  }

  /** The replacements `ToString(format)` makes, in order. */
  function Substitutions(m: LogMessage): seq<Substitution> {
    Zip(MessageOptions, MessageValues(m))
  }

  /** The options `ToLayoutHeader(format)` replaces: "sourcefile" comes before "sourcefullfile" here. */
  const HeaderOptions: seq<string> :=
    [OptionUserId, OptionApplicationName, OptionApplicationVersion, OptionDeviceId, OptionMessage,
     OptionLevel, OptionDate, OptionMemberName, OptionSourceFile, OptionSourceFullFile,
     OptionSourceLineNumber, OptionLoggerName, OptionExceptionMsg, OptionExceptionStacktrace]

  /** The column title each of `HeaderOptions` becomes. */
  const HeaderTitles: seq<string> :=
    ["UserId", "Application", "ApplicationVersion", "DeviceId", "Message",
     "MessageLevel", "Date", "MemberName", "SourceFile", "SourceFullFile",
     "SourceLineNumber", "LoggerName", "Exception.Message", "Exception.StackTrace"]

  /** The replacements `ToLayoutHeader(format)` makes, in order. */
  const HeaderSubstitutions: seq<Substitution> := Zip(HeaderOptions, HeaderTitles)

  /** The chained `StringBuilder.Replace` calls, first substitution first. */
  function Pipeline(s: string, subs: seq<Substitution>): string
    decreases |subs|
  {
    if |subs| == 0 then s
    else Pipeline(ReplaceAll(s, Token(subs[0].name), subs[0].value), subs[1..])
  }

  /**
   * `ToString(format)`: a format without "${" yields the bare message
   * (possibly `null`); otherwise the chain of replacements.
   */
  function ToString(m: LogMessage, format: string): (r: Option<string>)
    ensures !Contains(format, "${") ==> r == m.message
    ensures Contains(format, "${") ==> r.Some?
  {
    if !Contains(format, "${") then m.message
    else Some(Pipeline(format, Substitutions(m)))
  }

  /** `ToLayoutHeader(format)`: the format itself, or its options replaced by column titles. */
  function ToLayoutHeader(format: string): (r: string)
    ensures !Contains(format, "${") ==> r == format
  {
    if !Contains(format, "${") then format
    else Pipeline(format, HeaderSubstitutions)
  }

  // ---------------------------------------------------------------------
  // Layouts as pieces
  // ---------------------------------------------------------------------

  /** A layout piece: literal text, or an option "${name}". */
  datatype Piece = Lit(text: string) | Opt(name: string)

  /** Literal text holds no '$'; an option's name holds neither '$' nor '}'. */
  predicate ValidPiece(p: Piece) {
    match p
    case Lit(s) => '$' !in s
    case Opt(n) => '$' !in n && '}' !in n
  }

  predicate Layout(ps: seq<Piece>) {
    forall i :: 0 <= i < |ps| ==> ValidPiece(ps[i])
  }

  function PieceText(p: Piece): string {
    match p
    case Lit(s) => s
    case Opt(n) => Token(n)
  }

  /** The layout string the pieces spell. */
  function Flatten(ps: seq<Piece>): string {
    if |ps| == 0 then "" else PieceText(ps[0]) + Flatten(ps[1..])
  }

  /** The value of the first substitution for option `n`, if any. */
  function Lookup(subs: seq<Substitution>, n: string): (r: Option<string>)
    ensures r.Some? <==> exists k :: 0 <= k < |subs| && subs[k].name == n
  {
    if |subs| == 0 then None
    else if subs[0].name == n then Some(subs[0].value)
    else
      var r := Lookup(subs[1..], n);
      assert forall k :: 0 < k < |subs| ==> subs[k] == subs[1..][k - 1];
      r
  }

  /** A piece as a one-pass rendering shows it. */
  function Expand(p: Piece, subs: seq<Substitution>): string {
    match p
    case Lit(s) => s
    case Opt(n) => if Lookup(subs, n).Some? then Lookup(subs, n).value else Token(n)
  }

  /** The layout with every known option replaced by its value, in one pass. */
  function Render(ps: seq<Piece>, subs: seq<Substitution>): string {
    if |ps| == 0 then "" else Expand(ps[0], subs) + Render(ps[1..], subs)
  }

  /** The pieces after one substitution: each option `n` becomes the literal `v`. */
  function Subst(ps: seq<Piece>, n: string, v: string): (r: seq<Piece>)
    ensures |r| == |ps|
  {
    if |ps| == 0 then []
    else [if ps[0] == Opt(n) then Lit(v) else ps[0]] + Subst(ps[1..], n, v)
  }

  predicate NamesClosed(subs: seq<Substitution>) {
    forall k :: 0 <= k < |subs| ==> '}' !in subs[k].name
  }

  predicate ValuesDollarFree(subs: seq<Substitution>) {
    forall k :: 0 <= k < |subs| ==> '$' !in subs[k].value
  }

  /** An option other than `m` at the front is not an occurrence of "${m}" and passes through. */
  lemma OtherOptionSkipped(n: string, m: string, rest: string, v: string)
    requires n != m && '$' !in n && '}' !in n && '}' !in m
    ensures ReplaceAll(Token(n) + rest, Token(m), v) == Token(n) + ReplaceAll(rest, Token(m), v)
  {
    var t, p := Token(n), Token(m);
    var s := t + rest;
    if |s| >= |p| {
      if |p| < |t| {
        assert t[|p| - 1] == n[|p| - 3];
        assert s[..|p|][|p| - 1] != p[|p| - 1];
      } else if |p| == |t| {
        assert t[2..|t| - 1] == n && p[2..|p| - 1] == m;
        assert s[..|p|] == t;
      } else {
        assert p[|t| - 1] == m[|t| - 3];
        assert s[..|p|][|t| - 1] == '}';
      }
    }
    assert s[1..] == t[1..] + rest;
    assert '$' !in t[1..];
    ReplaceAllPrefix(t[1..], rest, p, v);
    assert [s[0]] + t[1..] == t;
  }

  /** One `Replace` of "${m}" by `v` on a layout is the substitution on its pieces. */
  lemma {:induction false} ReplaceIsSubst(ps: seq<Piece>, m: string, v: string)
    requires Layout(ps) && '}' !in m
    ensures ReplaceAll(Flatten(ps), Token(m), v) == Flatten(Subst(ps, m, v))
    decreases |ps|
  {
    if |ps| > 0 {
      var rest := Flatten(ps[1..]);
      assert Layout(ps[1..]) by {
        assert forall i :: 0 <= i < |ps| - 1 ==> ps[1..][i] == ps[i + 1];
      }
      ReplaceIsSubst(ps[1..], m, v);
      assert ValidPiece(ps[0]);
      match ps[0]
      case Lit(s) =>
        ReplaceAllPrefix(s, rest, Token(m), v);
      case Opt(n) =>
        if n == m {
          ReplaceAllFront(rest, Token(m), v);
        } else {
          OtherOptionSkipped(n, m, rest, v);
        }
    }
  }

  lemma {:induction false} SubstLayout(ps: seq<Piece>, n: string, v: string)
    requires Layout(ps) && '$' !in v
    ensures Layout(Subst(ps, n, v))
    decreases |ps|
  {
    if |ps| > 0 {
      assert ValidPiece(ps[0]);
      assert Layout(ps[1..]) by {
        assert forall i :: 0 <= i < |ps| - 1 ==> ps[1..][i] == ps[i + 1];
      }
      SubstLayout(ps[1..], n, v);
      var r := Subst(ps, n, v);
      assert forall i :: 1 <= i < |r| ==> r[i] == Subst(ps[1..], n, v)[i - 1];
    }
  }

  /** Rendering the substituted pieces with the remaining substitutions is rendering with all. */
  lemma {:induction false} RenderSubst(ps: seq<Piece>, sub: Substitution, rest: seq<Substitution>)
    ensures Render(Subst(ps, sub.name, sub.value), rest) == Render(ps, [sub] + rest)
    decreases |ps|
  {
    if |ps| > 0 {
      RenderSubst(ps[1..], sub, rest);
      assert ([sub] + rest)[1..] == rest;
    }
  }

  /** Without substitutions, rendering spells the layout. */
  lemma {:induction false} RenderNothing(ps: seq<Piece>)
    ensures Render(ps, []) == Flatten(ps)
    decreases |ps|
  {
    if |ps| > 0 {
      RenderNothing(ps[1..]);
    }
  }

  /**
   * The chain of replacements renders a layout in one pass: every option
   * with a substitution becomes its value, everything else is kept.
   */
  lemma {:induction false} PipelineRendersLayout(ps: seq<Piece>, subs: seq<Substitution>)
    requires Layout(ps) && NamesClosed(subs) && ValuesDollarFree(subs)
    ensures Pipeline(Flatten(ps), subs) == Render(ps, subs)
    decreases |subs|
  {
    if |subs| == 0 {
      RenderNothing(ps);
    } else {
      var sub := subs[0];
      assert '}' !in sub.name && '$' !in sub.value;
      ReplaceIsSubst(ps, sub.name, sub.value);
      SubstLayout(ps, sub.name, sub.value);
      assert NamesClosed(subs[1..]) && ValuesDollarFree(subs[1..]) by {
        assert forall k :: 0 <= k < |subs| - 1 ==> subs[1..][k] == subs[k + 1];
      }
      PipelineRendersLayout(Subst(ps, sub.name, sub.value), subs[1..]);
      RenderSubst(ps, sub, subs[1..]);
      assert [sub] + subs[1..] == subs;
    }
  }

  predicate HasOption(ps: seq<Piece>) {
    exists i :: 0 <= i < |ps| && ps[i].Opt?
  }

  lemma ContainsShift(a: string, s: string, t: string)
    requires Contains(s, t)
    ensures Contains(a + s, t)
  {
    var i :| 0 <= i <= |s| - |t| && OccursAt(s, t, i);
    assert (a + s)[|a| + i..|a| + i + |t|] == s[i..i + |t|];
    assert OccursAt(a + s, t, |a| + i);
  }

  /** A layout string holds "${" exactly when the layout has an option. */
  lemma {:induction false} LayoutOpens(ps: seq<Piece>)
    requires Layout(ps)
    ensures Contains(Flatten(ps), "${") <==> HasOption(ps)
    decreases |ps|
  {
    if |ps| == 0 {
      assert !OccursAt("", "${", 0);
    } else {
      var rest := Flatten(ps[1..]);
      assert Layout(ps[1..]) by {
        assert forall i :: 0 <= i < |ps| - 1 ==> ps[1..][i] == ps[i + 1];
      }
      LayoutOpens(ps[1..]);
      assert HasOption(ps) <==> ps[0].Opt? || HasOption(ps[1..]) by {
        if HasOption(ps[1..]) {
          var i :| 0 <= i < |ps| - 1 && ps[1..][i].Opt?;
          assert ps[i + 1].Opt?;
        }
        if HasOption(ps) && !ps[0].Opt? {
          var i :| 0 <= i < |ps| && ps[i].Opt?;
          assert ps[1..][i - 1].Opt?;
        }
      }
      assert ValidPiece(ps[0]);
      match ps[0]
      case Opt(n) =>
        assert OccursAt(Flatten(ps), "${", 0);
      case Lit(s) =>
        if HasOption(ps[1..]) {
          ContainsShift(s, rest, "${");
        } else {
          FlattenDollarFree(ps);
          DollarAbsent(Flatten(ps));
        }
    }
  }

  lemma DollarAbsent(s: string)
    requires '$' !in s
    ensures !Contains(s, "${")
  {
    forall i | 0 <= i <= |s| - 2
      ensures !OccursAt(s, "${", i)
    {
      assert s[i..i + 2][0] == s[i];
    }
  }

  lemma {:induction false} FlattenDollarFree(ps: seq<Piece>)
    requires Layout(ps) && !HasOption(ps)
    ensures '$' !in Flatten(ps)
    decreases |ps|
  {
    if |ps| > 0 {
      assert ValidPiece(ps[0]) && ps[0].Lit?;
      assert Layout(ps[1..]) && !HasOption(ps[1..]) by {
        assert forall i :: 0 <= i < |ps| - 1 ==> ps[1..][i] == ps[i + 1];
      }
      FlattenDollarFree(ps[1..]);
    }
  }

  /** Without options, every rendering spells the layout. */
  lemma {:induction false} RenderNoOptions(ps: seq<Piece>, subs: seq<Substitution>)
    requires !HasOption(ps)
    ensures Render(ps, subs) == Flatten(ps)
    decreases |ps|
  {
    if |ps| > 0 {
      assert ps[0].Lit?;
      assert forall i :: 0 <= i < |ps| - 1 ==> ps[1..][i] == ps[i + 1];
      RenderNoOptions(ps[1..], subs);
    }
  }

  /** No option name holds '}', so the piece theorem applies to both chains. */
  lemma OptionNamesClosed(m: LogMessage)
    ensures NamesClosed(Substitutions(m)) && NamesClosed(HeaderSubstitutions)
  {
    assert forall k :: 0 <= k < |MessageOptions| ==> '}' !in MessageOptions[k];
    assert forall k :: 0 <= k < |HeaderOptions| ==> '}' !in HeaderOptions[k];
  }

  /** The column titles hold no '$'. */
  lemma HeaderTitlesDollarFree()
    ensures ValuesDollarFree(HeaderSubstitutions)
  {
    assert forall k :: 0 <= k < |HeaderTitles| ==> '$' !in HeaderTitles[k];
  }

  /** The chain applied once more to what it already produced: the same chain over both lists. */
  lemma {:induction false} PipelineAppend(s: string, a: seq<Substitution>, b: seq<Substitution>)
    ensures Pipeline(s, a + b) == Pipeline(Pipeline(s, a), b)
    decreases |a|
  {
    if |a| == 0 {
      assert a + b == b;
    } else {
      assert (a + b)[0] == a[0] && (a + b)[1..] == a[1..] + b;
      PipelineAppend(ReplaceAll(s, Token(a[0].name), a[0].value), a[1..], b);
    }
  }

  /**
   * `ToString` on a layout: the bare message when the layout has no
   * option, else every known option replaced by the event's value and
   * every unknown option left as it is, provided no value holds a '$'.
   */
  lemma ToStringRendersLayout(m: LogMessage, ps: seq<Piece>)
    requires Layout(ps) && ValuesDollarFree(Substitutions(m))
    ensures ToString(m, Flatten(ps)) == if HasOption(ps) then Some(Render(ps, Substitutions(m))) else m.message
  {
    LayoutOpens(ps);
    OptionNamesClosed(m);
    PipelineRendersLayout(ps, Substitutions(m));
  }

  /** `ToLayoutHeader` on any layout replaces each known option by its column title, in one pass. */
  lemma LayoutHeaderRenders(ps: seq<Piece>)
    requires Layout(ps)
    ensures ToLayoutHeader(Flatten(ps)) == Render(ps, HeaderSubstitutions)
  {
    LayoutOpens(ps);
    if HasOption(ps) {
      OptionNamesClosed(LogMessage(0, None, None, None, None, DateTime(0, 0, 0, 0, 0, 0, 0), None, None,
                                   MessageLevels.Trace, None, None, 0, None));
      HeaderTitlesDollarFree();
      PipelineRendersLayout(ps, HeaderSubstitutions);
    } else {
      RenderNoOptions(ps, HeaderSubstitutions);
    }
  }

  /** The first substitution for an option is the one `Lookup` finds. */
  lemma {:induction false} LookupFirst(subs: seq<Substitution>, k: int, n: string)
    requires 0 <= k < |subs| && subs[k].name == n
    requires forall j :: 0 <= j < k ==> subs[j].name != n
    ensures Lookup(subs, n) == Some(subs[k].value)
    decreases k
  {
    if k > 0 {
      LookupFirst(subs[1..], k - 1, n);
    }
  }

  lemma FlattenCons(p: Piece, ps: seq<Piece>, subs: seq<Substitution>)
    ensures Flatten([p] + ps) == PieceText(p) + Flatten(ps)
    ensures Render([p] + ps, subs) == Expand(p, subs) + Render(ps, subs)
  {
    assert ([p] + ps)[1..] == ps;
  }

  /** The pieces of "${a} ${b} ${c}". */
  function ThreeOptions(a: string, b: string, c: string): seq<Piece> {
    [Opt(a), Lit(" "), Opt(b), Lit(" "), Opt(c)]
  }

  /** Five strings joined left to right, as they are regrouped to the right. */
  lemma Regroup(a: string, b: string, c: string, d: string, e: string)
    ensures a + b + c + d + e == a + (b + (c + (d + e)))
  {
    assert a + b + c + d + e == a + (b + (c + (d + e))) by {
      assert a + b + c == a + (b + c);
      assert a + b + c + d == a + (b + (c + d));
    }
  }

  lemma ThreeOptionText(a: string, b: string, c: string)
    ensures Flatten(ThreeOptions(a, b, c)) == Token(a) + (" " + (Token(b) + (" " + Token(c))))
  {
    var subs: seq<Substitution> := [];
    var p5: seq<Piece> := [Opt(c)];
    var p4 := [Lit(" ")] + p5;
    var p3 := [Opt(b)] + p4;
    var p2 := [Lit(" ")] + p3;
    assert ThreeOptions(a, b, c) == [Opt(a)] + p2;
    FlattenCons(Opt(c), [], subs);
    assert [Opt(c)] + [] == p5;
    assert Token(c) + "" == Token(c);
    FlattenCons(Lit(" "), p5, subs);
    FlattenCons(Opt(b), p4, subs);
    FlattenCons(Lit(" "), p3, subs);
    FlattenCons(Opt(a), p2, subs);
  }

  lemma ThreeOptionRender(subs: seq<Substitution>, a: string, b: string, c: string)
    ensures Render(ThreeOptions(a, b, c), subs)
         == Expand(Opt(a), subs) + (" " + (Expand(Opt(b), subs) + (" " + Expand(Opt(c), subs))))
  {
    var p5: seq<Piece> := [Opt(c)];
    var p4 := [Lit(" ")] + p5;
    var p3 := [Opt(b)] + p4;
    var p2 := [Lit(" ")] + p3;
    assert ThreeOptions(a, b, c) == [Opt(a)] + p2;
    FlattenCons(Opt(c), [], subs);
    assert [Opt(c)] + [] == p5;
    assert Expand(Opt(c), subs) + "" == Expand(Opt(c), subs);
    FlattenCons(Lit(" "), p5, subs);
    FlattenCons(Opt(b), p4, subs);
    FlattenCons(Lit(" "), p3, subs);
    FlattenCons(Opt(a), p2, subs);
  }

  /** A layout of three options separated by spaces renders as their three values. */
  lemma ThreeOptionLayout(subs: seq<Substitution>, a: string, b: string, c: string)
    requires NamesClosed(subs) && ValuesDollarFree(subs)
    requires ValidPiece(Opt(a)) && ValidPiece(Opt(b)) && ValidPiece(Opt(c))
    requires Lookup(subs, a).Some? && Lookup(subs, b).Some? && Lookup(subs, c).Some?
    ensures Pipeline(Token(a) + " " + Token(b) + " " + Token(c), subs)
         == Lookup(subs, a).value + " " + Lookup(subs, b).value + " " + Lookup(subs, c).value
  {
    var ps := ThreeOptions(a, b, c);
    ThreeOptionText(a, b, c);
    ThreeOptionRender(subs, a, b, c);
    assert Layout(ps);
    PipelineRendersLayout(ps, subs);
    Regroup(Token(a), " ", Token(b), " ", Token(c));
    Regroup(Lookup(subs, a).value, " ", Lookup(subs, b).value, " ", Lookup(subs, c).value);
  }

  /** The event's substitution at position `k` of the chain. */
  lemma SubstitutionAt(m: LogMessage, k: int)
    requires 0 <= k < |MessageOptions|
    ensures |Substitutions(m)| == |MessageOptions|
    ensures Substitutions(m)[k] == Substitution(MessageOptions[k], MessageValues(m)[k])
  {
  }

  lemma LookupDate(m: LogMessage)
    ensures Lookup(Substitutions(m), OptionDate) == Some(DateText(m.timestamp))
  {
    SubstitutionAt(m, 6);
    forall j | 0 <= j < 6 ensures Substitutions(m)[j].name != OptionDate {
      SubstitutionAt(m, j);
    }
    LookupFirst(Substitutions(m), 6, OptionDate);
  }

  lemma LookupLevel(m: LogMessage)
    ensures Lookup(Substitutions(m), OptionLevel) == Some(MessageLevels.LevelLetter(m.level))
  {
    SubstitutionAt(m, 5);
    forall j | 0 <= j < 5 ensures Substitutions(m)[j].name != OptionLevel {
      SubstitutionAt(m, j);
    }
    LookupFirst(Substitutions(m), 5, OptionLevel);
  }

  lemma LookupMessage(m: LogMessage)
    ensures Lookup(Substitutions(m), OptionMessage) == Some(m.message.GetOr(""))
  {
    SubstitutionAt(m, 4);
    forall j | 0 <= j < 4 ensures Substitutions(m)[j].name != OptionMessage {
      SubstitutionAt(m, j);
    }
    LookupFirst(Substitutions(m), 4, OptionMessage);
  }

  /** A layout that starts with an option holds "${". */
  lemma TokenOpens(n: string, rest: string)
    ensures Contains(Token(n) + rest, "${")
  {
    assert OccursAt(Token(n) + rest, "${", 0);
  }

  /** A format holding "${" is rendered by the chain of replacements. */
  lemma ToStringChain(m: LogMessage, format: string)
    requires Contains(format, "${")
    ensures ToString(m, format) == Some(Pipeline(format, Substitutions(m)))
  {
  }

  /** "${a} ${b} ${c}" holds "${". */
  lemma ThreeOptionsOpen(a: string, b: string, c: string)
    ensures Contains(Token(a) + " " + Token(b) + " " + Token(c), "${")
  {
    var s := Token(a) + " " + Token(b) + " " + Token(c);
    assert s[0] == '$' && s[1] == '{';
    assert OccursAt(s, "${", 0);
  }

  /** The usual layout "${date} ${level} ${message}" gives date, level letter and message. */
  lemma DateLevelMessageLayout(m: LogMessage)
    requires ValuesDollarFree(Substitutions(m))
    ensures ToString(m, Token(OptionDate) + " " + Token(OptionLevel) + " " + Token(OptionMessage))
         == Some(DateText(m.timestamp) + " " + MessageLevels.LevelLetter(m.level) + " " + m.message.GetOr(""))
  {
    ThreeOptionsOpen(OptionDate, OptionLevel, OptionMessage);
    ToStringChain(m, Token(OptionDate) + " " + Token(OptionLevel) + " " + Token(OptionMessage));
    OptionNamesClosed(m);
    LookupDate(m);
    LookupLevel(m);
    LookupMessage(m);
    assert Pipeline(Token(OptionDate) + " " + Token(OptionLevel) + " " + Token(OptionMessage), Substitutions(m))
         == DateText(m.timestamp) + " " + MessageLevels.LevelLetter(m.level) + " " + m.message.GetOr("") by {
      ThreeOptionLayout(Substitutions(m), OptionDate, OptionLevel, OptionMessage);
    }
  }

  /** A layout that is a single option renders as that option's value. */
  lemma SingleOption(subs: seq<Substitution>, n: string)
    requires NamesClosed(subs) && ValuesDollarFree(subs) && ValidPiece(Opt(n))
    ensures Pipeline(Token(n), subs) == Expand(Opt(n), subs)
  {
    var ps := [Opt(n)];
    assert Flatten(ps) == Token(n) + "" == Token(n);
    assert Render(ps, subs) == Expand(Opt(n), subs) + "";
    PipelineRendersLayout(ps, subs);
  }

  /** A single option no substitution names passes through the chain unchanged. */
  lemma UnnamedOptionKept(subs: seq<Substitution>, n: string)
    requires NamesClosed(subs) && ValuesDollarFree(subs) && ValidPiece(Opt(n))
    requires forall j :: 0 <= j < |subs| ==> subs[j].name != n
    ensures Pipeline(Token(n), subs) == Token(n)
  {
    SingleOption(subs, n);
  }

  /** A chain whose first substitution is for option `n1` turns "${n1}" into that value first. */
  lemma FrontSubstituted(subs: seq<Substitution>, n1: string, v: string)
    requires |subs| > 0 && subs[0] == Substitution(n1, v)
    ensures Pipeline(Token(n1), subs) == Pipeline(v, subs[1..])
  {
    ReplaceAllFront("", Token(n1), v);
    assert Token(n1) + "" == Token(n1) && v + "" == v;
  }

  /**
   * A value that spells option `n2`, substituted for option `n1`, is itself
   * replaced by the later substitution for `n2`.
   */
  lemma ValueRescanned(before: seq<Substitution>, n1: string, n2: string, after: seq<Substitution>)
    requires NamesClosed(before) && ValuesDollarFree(before) && NamesClosed(after) && ValuesDollarFree(after)
    requires ValidPiece(Opt(n1)) && ValidPiece(Opt(n2))
    requires forall j :: 0 <= j < |before| ==> before[j].name != n1
    ensures Pipeline(Token(n1), before + [Substitution(n1, Token(n2))] + after) == Expand(Opt(n2), after)
  {
    var rest := [Substitution(n1, Token(n2))] + after;
    UnnamedOptionKept(before, n1);
    PipelineAppend(Token(n1), before, rest);
    assert before + [Substitution(n1, Token(n2))] + after == before + rest;
    FrontSubstituted(rest, n1, Token(n2));
    assert rest[1..] == after;
    SingleOption(after, n2);
  }

  /**
   * Values are not protected from later replacements: a message whose text
   * is "${level}", logged through the layout "${message}", comes out as
   * the level letter (when the other values hold no '$').
   */
  lemma MessageTextRescanned(m: LogMessage)
    requires m.message == Some(Token(OptionLevel))
    requires ValuesDollarFree(Substitutions(m)[..4]) && ValuesDollarFree(Substitutions(m)[5..])
    ensures ToString(m, Token(OptionMessage)) == Some(MessageLevels.LevelLetter(m.level))
  {
    OptionNamesClosed(m);
    TokenOpens(OptionMessage, "");
    assert Token(OptionMessage) + "" == Token(OptionMessage);
    ToStringChain(m, Token(OptionMessage));
    MessageChainShape(m);
    RescannedChain(Substitutions(m), OptionMessage, OptionLevel);
  }

  /** The event's chain replaces "${message}" fifth and "${level}" sixth, and no earlier step names "message". */
  lemma MessageChainShape(m: LogMessage)
    ensures |Substitutions(m)| == 14
    ensures Substitutions(m)[4] == Substitution(OptionMessage, m.message.GetOr(""))
    ensures Substitutions(m)[5] == Substitution(OptionLevel, MessageLevels.LevelLetter(m.level))
    ensures forall j :: 0 <= j < 4 ==> Substitutions(m)[j].name != OptionMessage
  {
    forall j | 0 <= j < 4 ensures Substitutions(m)[j].name != OptionMessage {
      SubstitutionAt(m, j);
    }
    SubstitutionAt(m, 4);
    SubstitutionAt(m, 5);
  }

  /**
   * A chain whose fifth substitution replaces option `n1` by "${n2}" and
   * whose sixth is for `n2` turns "${n1}" into the sixth value.
   */
  lemma RescannedChain(subs: seq<Substitution>, n1: string, n2: string)
    requires |subs| >= 6 && NamesClosed(subs)
    requires ValuesDollarFree(subs[..4]) && ValuesDollarFree(subs[5..])
    requires ValidPiece(Opt(n1)) && ValidPiece(Opt(n2))
    requires subs[4] == Substitution(n1, Token(n2)) && subs[5].name == n2
    requires forall j :: 0 <= j < 4 ==> subs[j].name != n1
    ensures Pipeline(Token(n1), subs) == subs[5].value
  {
    var before, after := subs[..4], subs[5..];
    NamesClosedSlices(subs);
    forall j | 0 <= j < 4 ensures before[j].name != n1 {
      assert before[j] == subs[j];
    }
    ValueRescanned(before, n1, n2, after);
    assert subs == before + [subs[4]] + after;
    LookupFirst(after, 0, n2);
  }

  lemma NamesClosedSlices(subs: seq<Substitution>)
    requires NamesClosed(subs) && |subs| >= 5
    ensures NamesClosed(subs[..4]) && NamesClosed(subs[5..])
  {
    assert forall j :: 0 <= j < 4 ==> subs[..4][j] == subs[j];
    assert forall j :: 0 <= j < |subs| - 5 ==> subs[5..][j] == subs[j + 5];
  }
}
