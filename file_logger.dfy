/**
 * `FileLogger` (`Logging/Logger/FileLogger.cs`): queues messages, and a
 * consumer writes each one, rendered with the target's layout, to the log
 * file; once the file reaches `ArchiveAboveSize` it is moved to the first
 * free numbered archive slot, rolling the slots down when all are taken.
 *
 * The log folder is a map from file name (relative to the folder) to the
 * file's length in characters. Whether each lock is acquired within its
 * timeout is a `lockTaken` input; the storage helper's
 * `IsAvailableAndWriteable` answer is the field `storageReady`; the
 * length of `Environment.NewLine` is the constant `newLineLength`.
 */
module FileLoggers {
  import opened Wrappers
  import opened Strings
  import opened LogMessages
  import opened LoggingTargets

  // ---------------------------------------------------------------------
  // Archive names
  // ---------------------------------------------------------------------

  /** "." before each piece, concatenated: the extension the `for` loop of `Initialize` builds. */
  function Dots(parts: seq<string>): string {
    if |parts| == 0 then "" else "." + parts[0] + Dots(parts[1..])
  }

  lemma {:induction false} DotsSnoc(parts: seq<string>, x: string)
    ensures Dots(parts + [x]) == Dots(parts) + "." + x
    decreases |parts|
  {
    if |parts| > 0 {
      assert (parts + [x])[1..] == parts[1..] + [x];
      DotsSnoc(parts[1..], x);
    } else {
      assert (parts + [x])[1..] == [];
    }
  }

  lemma {:induction false} JoinDots(parts: seq<string>)
    requires |parts| > 0
    ensures JoinWith(parts, '.') == parts[0] + Dots(parts[1..])
    decreases |parts|
  {
    if |parts| > 1 {
      JoinDots(parts[1..]);
      assert parts[1..][1..] == parts[2..];
    }
  }

  /** The default `ArchiveFileName` for a log file name: `{text before the first '.'}_#{the rest}`. */
  function DefaultArchiveName(fileName: string): string {
    var parts := Split(fileName, '.');
    parts[0] + "_#" + Dots(parts[1..])
  }

  /** Where the first '.' of a name is, or its length when there is none. */
  function StemLength(fileName: string): (k: nat)
    ensures k <= |fileName|
  {
    if IndexOf(fileName, '.') < 0 then |fileName| else IndexOf(fileName, '.')
  }

  /**
   * The default archive name is the file name with "_#" inserted just
   * before its first '.', or at its end: removing it gives back the name.
   */
  lemma DefaultArchiveNameInserts(fileName: string)
    ensures var r := DefaultArchiveName(fileName);
            var k := StemLength(fileName);
            r == fileName[..k] + "_#" + fileName[k..] && '.' !in fileName[..k] &&
            (k < |fileName| ==> fileName[k] == '.')
  {
    var parts := Split(fileName, '.');
    SplitJoin(fileName, '.');
    JoinDots(parts);
    var k := IndexOf(fileName, '.');
    if k >= 0 {
      assert parts[0] == fileName[..k];
    } else {
      assert parts[0] == fileName;
    }
    assert fileName == parts[0] + Dots(parts[1..]);
    assert fileName[..|parts[0]|] == parts[0];
    assert fileName[|parts[0]|..] == Dots(parts[1..]);
  }

  /** `ArchiveFileName.Replace("#", n.ToString())`: the name of archive slot `n`. */
  function SlotName(archiveFileName: string, n: nat): string {
    ReplaceAll(archiveFileName, "#", NatToString(n))
  }

  lemma CharNotContained(s: string, c: char)
    requires c !in s
    ensures !Contains(s, [c])
  {
    forall i | 0 <= i <= |s| - 1 ensures !OccursAt(s, [c], i) {
      assert s[i..i + 1][0] == s[i];
    }
  }

  /** With a single '#', slot `n` puts the number where the '#' is. */
  lemma SlotNameFills(p: string, s: string, n: nat)
    requires '#' !in p && '#' !in s
    ensures SlotName(p + "#" + s, n) == p + NatToString(n) + s
  {
    var r := NatToString(n);
    assert p + "#" + s == p + ("#" + s);
    ReplaceAllPrefix(p, "#" + s, "#", r);
    ReplaceAllFront(s, "#", r);
    CharNotContained(s, '#');
    ReplaceAllAbsent(s, "#", r);
  }

  lemma DigitValue(d: nat)
    requires d < 10
    ensures Digit(d) as int == '0' as int + d
  {
    if d == 0 {} else if d == 1 {} else if d == 2 {} else if d == 3 {} else if d == 4 {}
    else if d == 5 {} else if d == 6 {} else if d == 7 {} else if d == 8 {} else {}
  }

  /** Different numbers print differently. */
  lemma {:induction false} NatToStringInjective(a: nat, b: nat)
    requires NatToString(a) == NatToString(b)
    ensures a == b
    decreases a
  {
    NatToStringShort(a);
    NatToStringShort(b);
    if a < 10 {
      DigitValue(a);
      DigitValue(b);
    } else {
      var sa := NatToString(a / 10);
      var sb := NatToString(b / 10);
      assert NatToString(a) == sa + [Digit(a % 10)];
      assert NatToString(b) == sb + [Digit(b % 10)];
      assert sa == NatToString(a)[..|NatToString(a)| - 1];
      assert sb == NatToString(b)[..|NatToString(b)| - 1];
      DigitValue(a % 10);
      DigitValue(b % 10);
      NatToStringInjective(a / 10, b / 10);
    }
  }

  /** A number prints as a single digit exactly when it is below ten. */
  lemma NatToStringShort(n: nat)
    ensures |NatToString(n)| == 1 <==> n < 10
  {
    if n >= 10 {
      assert |NatToString(n)| == |NatToString(n / 10)| + 1;
    }
  }

  /** Slots of a name with exactly one '#' have pairwise different names. */
  lemma SlotNamesDistinct(p: string, s: string, i: nat, j: nat)
    requires '#' !in p && '#' !in s && i != j
    ensures SlotName(p + "#" + s, i) != SlotName(p + "#" + s, j)
  {
    SlotNameFills(p, s, i);
    SlotNameFills(p, s, j);
    var x := NatToString(i);
    var y := NatToString(j);
    if p + x + s == p + y + s {
      assert |x| == |y|;
      assert (p + x + s)[|p|..|p| + |x|] == x;
      assert (p + y + s)[|p|..|p| + |y|] == y;
      NatToStringInjective(i, j);
    }
  }

  /**
   * For a log file name without '#', the default archive name's slots
   * are the name with "_n" inserted before the first '.', all different.
   */
  lemma DefaultSlotNames(fileName: string, i: nat, j: nat)
    requires '#' !in fileName
    ensures var k := StemLength(fileName);
            SlotName(DefaultArchiveName(fileName), i) == fileName[..k] + "_" + NatToString(i) + fileName[k..]
    ensures i != j ==> SlotName(DefaultArchiveName(fileName), i) != SlotName(DefaultArchiveName(fileName), j)
  {
    DefaultArchiveNameInserts(fileName);
    var k := StemLength(fileName);
    var p := fileName[..k] + "_";
    var s := fileName[k..];
    assert fileName == fileName[..k] + s;
    assert '#' !in p && '#' !in s;
    assert DefaultArchiveName(fileName) == p + "#" + s;
    SlotNameFills(p, s, i);
    if i != j {
      SlotNamesDistinct(p, s, i, j);
    }
  }

  // ---------------------------------------------------------------------
  // The folder and what each file operation does to it
  // ---------------------------------------------------------------------

  /** The log folder, the open log file (`_file`), and `_writeHeader`. */
  datatype Disk = Disk(files: map<string, nat>, file: Option<string>, writeHeader: bool)

  /** `ShouldArchive(fileSize)`. */
  function ShouldArchive(target: LoggingTarget, fileSize: int): bool {
    target.archiveAboveSize > 0 && target.archiveAboveSize <= fileSize
  }

  /** A file that should be archived still should once it is longer. */
  lemma ShouldArchiveUpward(target: LoggingTarget, size: int, larger: int)
    requires ShouldArchive(target, size) && size <= larger
    ensures ShouldArchive(target, larger)
  {
  }

  /** A threshold of zero or less turns archiving off; otherwise a file archives from that size on. */
  lemma ShouldArchiveThreshold(target: LoggingTarget, size: int)
    ensures target.archiveAboveSize <= 0 ==> !ShouldArchive(target, size)
    ensures target.archiveAboveSize > 0 ==> (ShouldArchive(target, size) <==> size >= target.archiveAboveSize)
  {
  }

  /**
   * `MoveLogAsync(from, to)`: nothing without the lock or when the source
   * is missing (or `null`, which throws); otherwise the file takes its new
   * name, replacing any file there.
   */
  function Moved(files: map<string, nat>, from: Option<string>, to: string, lockTaken: bool): map<string, nat> {
    if !lockTaken || from.None? || from.value !in files then files
    else (files - {from.value})[to := files[from.value]]
  }

  /** A move without the lock, or of a file that does not exist, changes nothing. */
  lemma MoveGuarded(files: map<string, nat>, from: Option<string>, to: string, lockTaken: bool)
    requires !lockTaken || from.None? || from.value !in files
    ensures Moved(files, from, to, lockTaken) == files
  {
  }

  /** A move under the lock: the target holds the source's content, the source is gone, the rest stays. */
  lemma MoveMoves(files: map<string, nat>, from: string, to: string)
    requires from in files
    ensures var r := Moved(files, Some(from), to, true);
            to in r && r[to] == files[from] && (from != to ==> from !in r) &&
            forall n :: n != from && n != to ==> (n in r <==> n in files) && (n in files ==> r[n] == files[n])
  {
  }

  /** The result of `WriteToFileAsync`: the folder afterwards and the length it returns. */
  datatype Written = Written(files: map<string, nat>, length: int)

  /**
   * `WriteToFileAsync(text)`: without the lock, without an open file, or
   * when the open file is gone (opening throws), nothing is written and 0
   * comes back. Otherwise the line and a line terminator are appended and
   * the length before plus the text's length plus 2 comes back; a `null`
   * text writes an empty line and then throws, returning the length before.
   */
  function Write(d: Disk, text: Option<string>, lockTaken: bool, newLineLength: nat): Written {
    if !lockTaken || d.file.None? || d.file.value !in d.files then Written(d.files, 0)
    else
      var f := d.file.value;
      var before := d.files[f];
      match text
      case None => Written(d.files[f := before + newLineLength], before)
      case Some(t) => Written(d.files[f := before + |t| + newLineLength], before + |t| + 2)
  }

  /**
   * What a write reports: 0 when nothing was written; otherwise the file's
   * new length exactly when the line terminator is two characters.
   */
  lemma WriteReportsLength(d: Disk, t: string, lockTaken: bool, newLineLength: nat)
    ensures var w := Write(d, Some(t), lockTaken, newLineLength);
            (!lockTaken || d.file.None? || d.file.value !in d.files ==> w == Written(d.files, 0)) &&
            (lockTaken && d.file.Some? && d.file.value in d.files ==>
               d.file.value in w.files && w.files[d.file.value] == d.files[d.file.value] + |t| + newLineLength &&
               (w.length == w.files[d.file.value] <==> newLineLength == 2) &&
               forall n :: n in d.files && n != d.file.value ==> n in w.files && w.files[n] == d.files[n])
  {
  }

  /**
   * `GetFileAsync(name)`, whose result becomes `_file`: `null` without the
   * lock, when the storage is not writable, or for a `null` name;
   * otherwise the file, created empty when missing, with `_writeHeader`
   * set exactly when it was missing.
   */
  function Opened(d: Disk, name: Option<string>, storageReady: bool, lockTaken: bool): Disk {
    if !lockTaken || !storageReady || name.None? then d.(file := None)
    else
      var n := name.value;
      Disk(if n in d.files then d.files else d.files[n := 0], Some(n), n !in d.files)
  }

  /** Opening marks the header as due exactly for a new file, which then exists, empty. */
  lemma OpenedMarksNewFile(d: Disk, name: string, storageReady: bool)
    requires storageReady
    ensures var r := Opened(d, Some(name), storageReady, true);
            r.file == Some(name) && name in r.files && (r.writeHeader <==> name !in d.files) &&
            (r.writeHeader ==> r.files[name] == 0) && (!r.writeHeader ==> r.files == d.files)
  {
  }

  /**
   * `WriteHeaderAsync`: the layout's header line is written and the flag
   * cleared; a `null` layout throws before the `try`, leaving both as they are.
   */
  function HeaderWritten(d: Disk, layout: Option<string>, newLineLength: nat): Disk {
    match layout
    case None => d
    case Some(l) => Disk(Write(d, Some(ToLayoutHeader(l)), true, newLineLength).files, d.file, false)
  }

  /** After a header write with a layout, no header is due. */
  lemma HeaderClearsFlag(d: Disk, layout: string, newLineLength: nat)
    ensures !HeaderWritten(d, Some(layout), newLineLength).writeHeader
    ensures HeaderWritten(d, Some(layout), newLineLength).file == d.file
  {
  }

  /** Getting the log file, then writing the header if it is new. */
  function Reopened(d: Disk, target: LoggingTarget, storageReady: bool, newLineLength: nat): Disk {
    var o := Opened(d, target.fileName, storageReady, true);
    if o.writeHeader then HeaderWritten(o, target.layout, newLineLength) else o
  }

  // ---------------------------------------------------------------------
  // Archive slots
  // ---------------------------------------------------------------------

  /** Where `ArchiveAsync`'s probe stops: the slot, and whether it rolled the logs first. */
  datatype Probe = Probe(slot: nat, roll: bool)

  /** The `while` of `ArchiveAsync` from slot `n` on. */
  function ProbeFrom(files: map<string, nat>, a: string, max: int, n: nat): Probe
    requires n >= 1
    decreases if max > n then max - n else 0
  {
    if SlotName(a, n) !in files then Probe(n, false)
    else if n >= max then Probe(n, true)
    else ProbeFrom(files, a, max, n + 1)
  }

  /** The last slot the probe may reach: `MaxArchiveFiles`, or 1 when that is less. */
  function LastSlot(max: int): nat {
    if max < 1 then 1 else max
  }

  lemma {:induction false} ProbeFromFirstFree(files: map<string, nat>, a: string, max: int, n: nat)
    requires 1 <= n <= LastSlot(max)
    ensures var p := ProbeFrom(files, a, max, n);
            n <= p.slot <= LastSlot(max) &&
            (forall k :: n <= k < p.slot ==> SlotName(a, k) in files) &&
            (!p.roll ==> SlotName(a, p.slot) !in files) &&
            (p.roll ==> p.slot == LastSlot(max) && SlotName(a, p.slot) in files)
    decreases LastSlot(max) - n
  {
    if SlotName(a, n) in files && n < max {
      ProbeFromFirstFree(files, a, max, n + 1);
    }
  }

  /**
   * `ArchiveAsync`'s slot: the smallest slot from 1 whose archive file is
   * missing; when every slot up to `MaxArchiveFiles` exists, the logs are
   * rolled and that last slot is used.
   */
  lemma ProbeFirstFree(files: map<string, nat>, a: string, max: int)
    ensures var p := ProbeFrom(files, a, max, 1);
            1 <= p.slot <= LastSlot(max) &&
            (forall k :: 1 <= k < p.slot ==> SlotName(a, k) in files) &&
            (!p.roll ==> SlotName(a, p.slot) !in files) &&
            (p.roll <==> forall k :: 1 <= k <= LastSlot(max) ==> SlotName(a, k) in files) &&
            (p.roll ==> p.slot == LastSlot(max))
  {
    ProbeFromFirstFree(files, a, max, 1);
  }

  /** The `while` of `RollLogsAsync` from slot `k` on: slot k+1 is moved onto slot k. */
  function RollFrom(files: map<string, nat>, a: string, k: nat, max: int): map<string, nat>
    decreases if max > k then max - k else 0
  {
    if k >= max then files
    else RollFrom(Moved(files, Some(SlotName(a, k + 1)), SlotName(a, k), true), a, k + 1, max)
  }

  /** The slot names from `k` to `max`. */
  function SlotRange(a: string, k: nat, max: int): set<string> {
    set m: nat | k <= m <= max :: SlotName(a, m)
  }

  /**
   * What rolling from slot `k` leaves, stated for a result `r` of the folder
   * `files`: each slot `j` from `k` up to `max`-1 holds what slot `j`+1
   * held, slot `max` is gone, and every file outside the slots is kept.
   */
  ghost predicate ShiftedFrom(files: map<string, nat>, r: map<string, nat>, a: string, k: nat, max: int)
    requires forall m: nat :: k < m <= max ==> SlotName(a, m) in files
  {
    (forall j: nat :: k <= j < max ==> SlotName(a, j) in r && r[SlotName(a, j)] == files[SlotName(a, j + 1)]) &&
    (max > k ==> SlotName(a, max) !in r) &&
    (forall n :: n !in SlotRange(a, k, max) ==> (n in r <==> n in files) && (n in files ==> r[n] == files[n]))
  }

  /** Slots `i` and `j` have different names. */
  ghost predicate Differ(a: string, i: nat, j: nat) {
    SlotName(a, i) != SlotName(a, j)
  }

  /** One move of slot k+1 onto slot k, followed by a roll from k+1, is a roll from k. */
  lemma RollShiftStep(files: map<string, nat>, r: map<string, nat>, a: string, k: nat, max: int)
    requires k < max
    requires forall i: nat, j: nat :: k <= i <= max && k <= j <= max && i != j ==> Differ(a, i, j)
    requires forall m: nat :: k < m <= max ==> SlotName(a, m) in files
    requires var f' := Moved(files, Some(SlotName(a, k + 1)), SlotName(a, k), true);
             (forall m: nat :: k + 1 < m <= max ==> SlotName(a, m) in f') && ShiftedFrom(f', r, a, k + 1, max) &&
             (max == k + 1 ==> r == f')
    ensures ShiftedFrom(files, r, a, k, max)
  {
    var from := SlotName(a, k + 1);
    var to := SlotName(a, k);
    var f' := Moved(files, Some(from), to, true);
    assert f' == (files - {from})[to := files[from]];
    forall m: nat | k + 1 <= m <= max ensures SlotName(a, m) != to {
      assert Differ(a, m, k);
    }
    assert to !in SlotRange(a, k + 1, max);
    assert to in r && r[to] == files[from];
    forall j: nat | k <= j < max ensures SlotName(a, j) in r && r[SlotName(a, j)] == files[SlotName(a, j + 1)] {
      if j > k {
        assert Differ(a, j + 1, k + 1) && Differ(a, j + 1, k);
      }
    }
    if max == k + 1 {
      assert from !in f';
    }
    assert from in SlotRange(a, k, max) && to in SlotRange(a, k, max);
    forall n | n !in SlotRange(a, k, max)
      ensures (n in r <==> n in files) && (n in files ==> r[n] == files[n])
    {
      assert n !in SlotRange(a, k + 1, max) && n != from && n != to;
    }
  }

  lemma {:induction false} RollFromShifts(files: map<string, nat>, a: string, k: nat, max: int)
    requires forall i: nat, j: nat :: k <= i <= max && k <= j <= max && i != j ==> Differ(a, i, j)
    requires forall m: nat :: k < m <= max ==> SlotName(a, m) in files
    ensures ShiftedFrom(files, RollFrom(files, a, k, max), a, k, max)
    decreases if max > k then max - k else 0
  {
    if k < max {
      var from := SlotName(a, k + 1);
      var to := SlotName(a, k);
      var f' := Moved(files, Some(from), to, true);
      assert f' == (files - {from})[to := files[from]];
      forall m: nat | k + 1 < m <= max ensures SlotName(a, m) in f' {
        assert Differ(a, m, k + 1);
      }
      RollFromShifts(f', a, k + 1, max);
      RollShiftStep(files, RollFrom(f', a, k + 1, max), a, k, max);
    }
  }

  /**
   * Rolling full, distinctly named slots moves each slot k+1 onto slot k
   * for k from 1 to `MaxArchiveFiles`-1, freeing the last slot and leaving
   * every other file alone.
   */
  lemma RollShiftsSlots(files: map<string, nat>, a: string, max: int)
    requires forall i: nat, j: nat :: 1 <= i <= max && 1 <= j <= max && i != j ==> SlotName(a, i) != SlotName(a, j)
    requires forall m: nat :: 1 <= m <= max ==> SlotName(a, m) in files
    ensures var r := RollFrom(files, a, 1, max);
            (forall j: nat :: 1 <= j < max ==> SlotName(a, j) in r && r[SlotName(a, j)] == files[SlotName(a, j + 1)]) &&
            (max > 1 ==> SlotName(a, max) !in r) &&
            (forall n :: n !in SlotRange(a, 1, max) ==> (n in r <==> n in files) && (n in files ==> r[n] == files[n]))
  {
    RollFromShifts(files, a, 1, max);
  }

  // ---------------------------------------------------------------------
  // Archiving, logging one message, draining the queue
  // ---------------------------------------------------------------------

  /** `RollLogsAsync` for a target; a `null` archive name throws at once. */
  function Rolled(files: map<string, nat>, target: LoggingTarget): map<string, nat> {
    match target.archiveFileName
    case None => files
    case Some(a) => RollFrom(files, a, 1, target.maxArchiveFiles)
  }

  /**
   * `ArchiveAsync`: probe the slots (rolling when all are taken), move the
   * log file to the chosen slot, reopen the log file and write its header
   * if it is new. A `null` archive name throws before anything happens.
   */
  function Archived(d: Disk, target: LoggingTarget, storageReady: bool, newLineLength: nat): Disk {
    match target.archiveFileName
    case None => d
    case Some(a) =>
      var p := ProbeFrom(d.files, a, target.maxArchiveFiles, 1);
      var rolled := if p.roll then Rolled(d.files, target) else d.files;
      var moved := Moved(rolled, target.fileName, SlotName(a, p.slot), true);
      Reopened(d.(files := moved), target, storageReady, newLineLength)
  }

  /**
   * `PerformLoggingAsync`: render the message with the layout (a `null`
   * layout throws), then under the sync lock write it and archive when the
   * reported length calls for it.
   */
  function Performed(d: Disk, target: LoggingTarget, m: LogMessage, syncLockTaken: bool,
                     storageReady: bool, newLineLength: nat): Disk {
    if target.layout.None? || !syncLockTaken then d
    else
      var w := Write(d, LogMessages.ToString(m, target.layout.value), true, newLineLength);
      var written := d.(files := w.files);
      if ShouldArchive(target, w.length) then Archived(written, target, storageReady, newLineLength) else written
  }

  /** The consumer: every queued message logged in turn, front first. */
  function Drained(d: Disk, target: LoggingTarget, queue: seq<LogMessage>, storageReady: bool, newLineLength: nat): Disk
    decreases |queue|
  {
    if |queue| == 0 then d
    else Drained(Performed(d, target, queue[0], true, storageReady, newLineLength), target, queue[1..], storageReady, newLineLength)
  }

  /** Draining two batches in turn is draining them together: messages are logged first in, first out. */
  lemma {:induction false} DrainedAppend(d: Disk, target: LoggingTarget, q1: seq<LogMessage>, q2: seq<LogMessage>,
                                         storageReady: bool, newLineLength: nat)
    ensures Drained(d, target, q1 + q2, storageReady, newLineLength) ==
            Drained(Drained(d, target, q1, storageReady, newLineLength), target, q2, storageReady, newLineLength)
    decreases |q1|
  {
    if |q1| > 0 {
      assert (q1 + q2)[0] == q1[0];
      assert (q1 + q2)[1..] == q1[1..] + q2;
      DrainedAppend(Performed(d, target, q1[0], true, storageReady, newLineLength), target, q1[1..], q2, storageReady, newLineLength);
    } else {
      assert q1 + q2 == q2;
    }
  }

  /** A message under a layout without options is written as its bare text, and archiving follows the size. */
  lemma PerformedPlainLayout(d: Disk, target: LoggingTarget, m: LogMessage, storageReady: bool, newLineLength: nat)
    requires target.layout.Some? && !Contains(target.layout.value, "${") && m.message.Some?
    requires d.file.Some? && d.file.value in d.files
    ensures var w := Write(d, m.message, true, newLineLength);
            w.length == d.files[d.file.value] + |m.message.value| + 2 &&
            Performed(d, target, m, true, storageReady, newLineLength) ==
              if ShouldArchive(target, w.length) then Archived(d.(files := w.files), target, storageReady, newLineLength)
              else d.(files := w.files)
  {
  }

  /**
   * The `ArchiveFileName` default `Initialize` applies: only when archiving
   * is on and no archive name is set (a `null` file name throws).
   */
  function ArchiveDefaulted(target: LoggingTarget): LoggingTarget {
    if target.archiveAboveSize <= 0 || (target.archiveFileName.Some? && target.archiveFileName.value != "") then target
    else if target.fileName.None? then target
    else target.(archiveFileName := Some(DefaultArchiveName(target.fileName.value)))
  }

  /**
   * `Initialize` from folder state `d` stops in `WriteHeaderAsync` when it
   * opens a new file under a `null` layout: `ToLayoutHeader(null)` throws
   * before the `try`, so the archive name is never defaulted.
   */
  predicate HeaderThrows(d: Disk, target: LoggingTarget, storageReady: bool) {
    d.file.None? && Opened(d, target.fileName, storageReady, true).writeHeader && target.layout.None?
  }

  /** The target `Initialize` leaves behind. */
  function Initialized(d: Disk, target: LoggingTarget, storageReady: bool): LoggingTarget {
    if HeaderThrows(d, target, storageReady) then target else ArchiveDefaulted(target)
  }

  /** The default is applied exactly when archiving is on, the name unset and the file named. */
  lemma ArchiveDefaultedWhen(target: LoggingTarget)
    ensures var r := ArchiveDefaulted(target);
            r.archiveFileName != target.archiveFileName <==>
              target.archiveAboveSize > 0 && (target.archiveFileName.None? || target.archiveFileName.value == "") &&
              target.fileName.Some?
    ensures var r := ArchiveDefaulted(target);
            r.archiveFileName != target.archiveFileName ==>
              r.archiveFileName == Some(DefaultArchiveName(target.fileName.value)) &&
              r == target.(archiveFileName := r.archiveFileName)
  {
    if target.archiveAboveSize > 0 && target.archiveFileName == Some("") && target.fileName.Some? {
      DefaultArchiveNameInserts(target.fileName.value);
      assert |DefaultArchiveName(target.fileName.value)| >= 2;
    }
  }

  // ---------------------------------------------------------------------
  // The logger
  // ---------------------------------------------------------------------

  class FileLogger {
    var target: LoggingTarget
    var files: map<string, nat>
    var file: Option<string>
    var writeHeader: bool
    var queue: seq<LogMessage>
    var storageReady: bool
    const newLineLength: nat

    /** The folder, the open file and the header flag. */
    function State(): Disk
      reads this
    {
      Disk(files, file, writeHeader)
    }

    /**
     * A logger over a folder, given its target configuration as the
     * factory does right after creating it (the `TargetConfig` setter).
     */
    constructor (target: LoggingTarget, files: map<string, nat>, storageReady: bool, newLineLength: nat)
      ensures this.storageReady == storageReady && this.newLineLength == newLineLength && queue == []
      ensures State() == Reopened(Disk(files, None, false), target, storageReady, newLineLength)
      ensures this.target == Initialized(Disk(files, None, false), target, storageReady)
    {
      this.target := target;
      this.files := files;
      file := None;
      writeHeader := false;
      queue := [];
      this.storageReady := storageReady;
      this.newLineLength := newLineLength;
      new;
      Initialize();
    }

    /** The `TargetConfig` setter: store the target, then `Initialize`. */
    method SetTargetConfig(t: LoggingTarget)
      modifies this`target, this`files, this`file, this`writeHeader
      ensures target == Initialized(old(State()), t, storageReady)
      ensures State() == if old(file).None? then Reopened(old(State()), t, storageReady, newLineLength) else old(State())
    {
      target := t;
      Initialize();
    }

    /**
     * `Initialize`: open the log file (writing the header of a new one)
     * unless one is open, then default the archive name.
     */
    method Initialize()
      modifies this`target, this`files, this`file, this`writeHeader
      ensures target == Initialized(old(State()), old(target), storageReady)
      ensures State() == if old(file).None? then Reopened(old(State()), old(target), storageReady, newLineLength) else old(State())
    {
      if file.None? {
        GetFile(target.fileName, true);
        if writeHeader {
          WriteHeader();
          if writeHeader {
            // the header step threw, which ends `Initialize`
            return;
          }
        }
      }
      if target.archiveAboveSize <= 0 || (target.archiveFileName.Some? && target.archiveFileName.value != "") {
        return;
      }
      if target.fileName.None? {
        return;
      }
      var parts := Split(target.fileName.value, '.');
      var stem := parts[0];
      var ext := ArchiveExtension(parts);
      target := target.(archiveFileName := Some(stem + "_#" + ext));
    }

    /**
     * The extension `Initialize` rebuilds from the split file name: every
     * part after the first, each with its '.' put back.
     */
    method ArchiveExtension(parts: seq<string>) returns (ext: string)
      requires |parts| >= 1
      ensures ext == Dots(parts[1..])
    {
      ext := "";
      if |parts| == 2 {
        ext := "." + parts[1];
        assert parts[1..] == [parts[1]];
        assert Dots(parts[1..]) == ext by { assert parts[1..][1..] == []; }
      } else if |parts| > 2 {
        for i := 1 to |parts|
          invariant ext == Dots(parts[1..i])
        {
          DotsSnoc(parts[1..i], parts[i]);
          assert parts[1..i + 1] == parts[1..i] + [parts[i]];
          ext := ext + "." + parts[i];
        }
        assert parts[1..|parts|] == parts[1..];
      } else {
        assert parts[1..] == [];
      }
    }

    /** `GetFileAsync(name)` with its result stored in `_file`. */
    method GetFile(name: Option<string>, lockTaken: bool)
      modifies this`files, this`file, this`writeHeader
      ensures State() == Opened(old(State()), name, storageReady, lockTaken)
    {
      if !lockTaken || !storageReady || name.None? {
        file := None;
        return;
      }
      var n := name.value;
      writeHeader := n !in files;
      if n !in files {
        files := files[n := 0];
      }
      file := Some(n);
    }

    /** `WriteToFileAsync(text)`. */
    method WriteToFile(text: Option<string>, lockTaken: bool) returns (length: int)
      modifies this`files
      ensures Written(files, length) == Write(old(State()), text, lockTaken, newLineLength)
    {
      if !lockTaken || file.None? || file.value !in files {
        return 0;
      }
      var f := file.value;
      length := files[f];
      if text.None? {
        files := files[f := length + newLineLength];
        return;
      }
      files := files[f := length + |text.value| + newLineLength];
      length := length + |text.value| + 2;
    }

    /** `WriteHeaderAsync`. */
    method WriteHeader()
      modifies this`files, this`writeHeader
      ensures State() == HeaderWritten(old(State()), target.layout, newLineLength)
    {
      if target.layout.None? {
        return;
      }
      var header := ToLayoutHeader(target.layout.value);
      var _ := WriteToFile(Some(header), true);
      writeHeader := false;
    }

    /** `MoveLogAsync(from, to)`. */
    method MoveLog(from: Option<string>, to: string, lockTaken: bool)
      modifies this`files
      ensures files == Moved(old(files), from, to, lockTaken)
    {
      if !lockTaken || from.None? || from.value !in files {
        return;
      }
      var content := files[from.value];
      files := (files - {from.value})[to := content];
    }

    /** `RollLogsAsync`: slot k+1 onto slot k, for k from 1 while below `MaxArchiveFiles`. */
    method RollLogs()
      modifies this`files
      ensures files == Rolled(old(files), target)
    {
      if target.archiveFileName.None? {
        return;
      }
      var a := target.archiveFileName.value;
      var max := target.maxArchiveFiles;
      var fileCount: nat := 1;
      while fileCount < max
        invariant RollFrom(files, a, fileCount, max) == RollFrom(old(files), a, 1, max)
        decreases max - fileCount
      {
        var targetFile := SlotName(a, fileCount);
        var sourceFile := SlotName(a, fileCount + 1);
        MoveLog(Some(sourceFile), targetFile, true);
        fileCount := fileCount + 1;
      }
    }

    /** `ArchiveAsync`. */
    method Archive()
      modifies this`files, this`file, this`writeHeader
      ensures State() == Archived(old(State()), target, storageReady, newLineLength)
    {
      if target.archiveFileName.None? {
        return;
      }
      var a := target.archiveFileName.value;
      var max := target.maxArchiveFiles;
      var fileCount: nat := 1;
      var filename := SlotName(a, fileCount);
      var rolled := false;
      while filename in files
        invariant fileCount >= 1 && filename == SlotName(a, fileCount)
        invariant !rolled
        invariant files == old(files)
        invariant ProbeFrom(files, a, max, fileCount) == ProbeFrom(files, a, max, 1)
        decreases if max > fileCount then max - fileCount else 0
      {
        if fileCount >= max {
          RollLogs();
          rolled := true;
          break;
        }
        fileCount := fileCount + 1;
        filename := SlotName(a, fileCount);
      }
      assert ProbeFrom(old(files), a, max, 1) == Probe(fileCount, rolled);
      MoveLog(target.fileName, filename, true);
      GetFile(target.fileName, true);
      if writeHeader {
        WriteHeader();
      }
    }

    /** `PerformLoggingAsync(m)`. */
    method PerformLogging(m: LogMessage, syncLockTaken: bool)
      modifies this`files, this`file, this`writeHeader
      ensures State() == Performed(old(State()), target, m, syncLockTaken, storageReady, newLineLength)
    {
      if target.layout.None? {
        return;
      }
      var text := LogMessages.ToString(m, target.layout.value);
      if !syncLockTaken {
        return;
      }
      var length := WriteToFile(text, true);
      if ShouldArchive(target, length) {
        Archive();
      }
    }

    /** `LogMessage(m)`: queued at the back, or dropped when the queue lock times out. */
    method LogMessage(m: LogMessages.LogMessage, lockTaken: bool)
      modifies this`queue
      ensures queue == if lockTaken then old(queue) + [m] else old(queue)
    {
      if lockTaken {
        queue := queue + [m];
      }
    }

    /**
     * The locked part of one round of `StartQueueLoggerAsync`: without the
     * lock, or with an empty queue, nothing is taken; otherwise the front message.
     */
    method Dequeue(lockTaken: bool) returns (m: Option<LogMessages.LogMessage>)
      modifies this`queue
      ensures !lockTaken || old(queue) == [] ==> m.None? && queue == old(queue)
      ensures lockTaken && old(queue) != [] ==> m == Some(old(queue)[0]) && queue == old(queue)[1..]
    {
      if !lockTaken || |queue| == 0 {
        return None;
      }
      m := Some(queue[0]);
      queue := queue[1..];
    }

    /**
     * `StartQueueLoggerAsync` with every lock acquired: dequeue and log
     * until the queue is empty; the messages are logged in queue order.
     */
    method Drain() returns (logged: seq<LogMessages.LogMessage>)
      modifies this`queue, this`files, this`file, this`writeHeader
      ensures queue == [] && logged == old(queue)
      ensures State() == Drained(old(State()), target, old(queue), storageReady, newLineLength)
    {
      logged := [];
      while |queue| > 0
        invariant logged + queue == old(queue)
        invariant Drained(State(), target, queue, storageReady, newLineLength) ==
                  Drained(old(State()), target, old(queue), storageReady, newLineLength)
        decreases |queue|
      {
        ghost var q := queue;
        var m := Dequeue(true);
        assert q == [m.value] + queue;
        JoinAssoc(logged, [m.value], queue);
        PerformLogging(m.value, true);
        logged := logged + [m.value];
      }
    }
  }
}
