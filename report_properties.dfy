/**
 * What `DiagnosticReport.parseContents` and `init?(path:)` promise, stated
 * over the specification functions of module `Reports`: which files are
 * accepted, which line decides each field, and what the construction adds.
 */
module ReportProperties {
  import opened Wrappers
  import opened Text
  import opened Matching
  import opened Reports

  // ---------------------------------------------------------------------
  // Which lines, and so which files, are accepted
  // ---------------------------------------------------------------------

  /**
   * A line `parseContents` gets past: it starts with no known label, or its
   * pattern matches and, for `Date/Time:`, a formatter reads the value.
   */
  predicate LineAccepted(line: string, fmt: Formatting) {
    match Classify(line)
    case None => true
    case Some(l) =>
      Matches(line, PatternOf(l)).Some?
      && (l == DateTimeLabel ==> ParseDate(fmt, Trim(Matches(line, PatternOf(l)).value[0])).Some?)
  }

  /** Whether a line is accepted does not depend on the fields read so far. */
  lemma StepAcceptsIff(f: Fields, line: string, fmt: Formatting)
    ensures Step(f, line, fmt).Some? <==> LineAccepted(line, fmt)
  {
  }

  /** The scan succeeds exactly when every line is accepted. */
  lemma {:induction false} ScanSucceedsIff(f: Fields, lines: seq<string>, fmt: Formatting)
    decreases |lines|
    ensures ScanLines(f, lines, fmt).Some? <==> forall i :: 0 <= i < |lines| ==> LineAccepted(lines[i], fmt)
  {
    if lines != [] {
      StepAcceptsIff(f, lines[0], fmt);
      if Step(f, lines[0], fmt).Some? {
        var g := Step(f, lines[0], fmt).value;
        ScanSucceedsIff(g, lines[1..], fmt);
        if forall i :: 0 <= i < |lines| - 1 ==> LineAccepted(lines[1..][i], fmt) {
          forall i | 0 <= i < |lines| ensures LineAccepted(lines[i], fmt) {
            if i > 0 {
              assert lines[i] == lines[1..][i - 1];
            }
          }
        } else {
          var i :| 0 <= i < |lines| - 1 && !LineAccepted(lines[1..][i], fmt);
          assert lines[1..][i] == lines[i + 1];
        }
      }
    }
  }

  /** A file is rejected exactly when its extension is unknown or one of its lines is not accepted. */
  lemma ParseSucceedsIff(path: string, contents: string, fmt: Formatting)
    ensures Parse(path, contents, fmt).Some? <==>
      KindOfPath(path).Some?
      && forall i :: 0 <= i < |Lines(contents)| ==> LineAccepted(Lines(contents)[i], fmt)
  {
    ParseOutcomes(path, contents, fmt);
    ScanSucceedsIff(Initial, Lines(contents), fmt);
  }

  /** One line that is not accepted rejects the whole file. */
  lemma RejectedLineRejects(path: string, contents: string, fmt: Formatting, i: nat)
    requires i < |Lines(contents)|
    requires !LineAccepted(Lines(contents)[i], fmt)
    ensures Parse(path, contents, fmt).None?
  {
    ParseSucceedsIff(path, contents, fmt);
  }

  /** A matched `Date/Time:` line is accepted exactly when a formatter reads its value. */
  lemma DateLineAcceptedIff(line: string, fmt: Formatting, c: string)
    requires Classify(line) == Some(DateTimeLabel)
    requires Matches(line, PatternOf(DateTimeLabel)) == Some([c])
    ensures LineAccepted(line, fmt) <==> ParseDate(fmt, Trim(c)).Some?
  {
    var m := Matches(line, PatternOf(DateTimeLabel));
    assert m.value[0] == c;
    assert LineAccepted(line, fmt) == (m.Some? && ParseDate(fmt, Trim(m.value[0])).Some?);
  }

  /** A labelled line whose pattern does not match rejects the whole file. */
  lemma MalformedLineRejects(path: string, contents: string, fmt: Formatting, i: nat)
    requires i < |Lines(contents)|
    requires Classify(Lines(contents)[i]).Some?
    requires Matches(Lines(contents)[i], PatternOf(Classify(Lines(contents)[i]).value)).None?
    ensures Parse(path, contents, fmt).None?
  {
    RejectedLineRejects(path, contents, fmt, i);
  }

  /** A `Date/Time:` line whose value no formatter reads rejects the whole file. */
  lemma UnreadableDateRejects(path: string, contents: string, fmt: Formatting, i: nat, c: string)
    requires i < |Lines(contents)|
    requires Classify(Lines(contents)[i]) == Some(DateTimeLabel)
    requires Matches(Lines(contents)[i], PatternOf(DateTimeLabel)) == Some([c])
    requires ParseDate(fmt, Trim(c)).None?
    ensures Parse(path, contents, fmt).None?
  {
    DateLineAcceptedIff(Lines(contents)[i], fmt, c);
    RejectedLineRejects(path, contents, fmt, i);
  }

  /** A line without a known label changes nothing. */
  lemma UnlabelledLineIgnored(f: Fields, line: string, fmt: Formatting)
    requires forall l: Label :: !HasPrefix(line, Prefix(l))
    ensures Step(f, line, fmt) == Some(f)
  {
  }

  /** Text with no recognised line leaves every field at its declared initial value. */
  lemma {:induction false} ScanUnlabelled(f: Fields, lines: seq<string>, fmt: Formatting)
    requires forall k :: 0 <= k < |lines| ==> Classify(lines[k]).None?
    decreases |lines|
    ensures ScanLines(f, lines, fmt) == Some(f)
  {
    if lines != [] {
      assert Step(f, lines[0], fmt) == Some(f);
      ScanUnlabelled(f, lines[1..], fmt);
    }
  }

  /**
   * A file of a known kind with no recognised line is accepted with `process`
   * empty, `pid` and `uid` zero, no date, no process path, and every text
   * field shown as "--".
   */
  lemma UnlabelledFileDefaults(path: string, contents: string, fmt: Formatting)
    requires KindOfPath(path).Some?
    requires forall k :: 0 <= k < |Lines(contents)| ==> Classify(Lines(contents)[k]).None?
    ensures Parse(path, contents, fmt).Some?
    ensures var g := Parse(path, contents, fmt).value.fields;
      g.process == "" && g.pid == 0 && g.uid == 0 && g.pidNumber.None? && g.uidNumber.None?
      && g.date.None? && g.processPath.None?
      && g.version == Some("--") && g.osVersion == Some("--") && g.codeType == Some("--")
      && g.exceptionType == Some("--") && g.pidString == Some("--") && g.uidString == Some("--")
  {
    ParseOutcomes(path, contents, fmt);
    ScanUnlabelled(Initial, Lines(contents), fmt);
  }

  // ---------------------------------------------------------------------
  // The last line that writes a field decides it
  // ---------------------------------------------------------------------

  /** The groups of fields one kind of line overwrites together. */
  datatype Slot =
    | ProcessSlot | PidSlot | UidSlot | VersionSlot | OSVersionSlot
    | CodeTypeSlot | ExceptionTypeSlot | DateSlot | PathSlot

  /** The contents of one slot. */
  datatype Value =
    | Text(text: string)
    | Counter(count: nat, number: Option<nat>, rendered: Option<string>)
    | OptionalText(value: Option<string>)
    | Moment(date: Option<Date>)

  function Get(f: Fields, s: Slot): Value {
    match s
    case ProcessSlot => Text(f.process)
    case PidSlot => Counter(f.pid, f.pidNumber, f.pidString)
    case UidSlot => Counter(f.uid, f.uidNumber, f.uidString)
    case VersionSlot => OptionalText(f.version)
    case OSVersionSlot => OptionalText(f.osVersion)
    case CodeTypeSlot => OptionalText(f.codeType)
    case ExceptionTypeSlot => OptionalText(f.exceptionType)
    case DateSlot => Moment(f.date)
    case PathSlot => OptionalText(f.processPath)
  }

  /** The slots a label's branch assigns: `Process:` and `Command:` both assign `process`. */
  predicate Writes(l: Label, s: Slot) {
    match l
    case ProcessLabel => s == ProcessSlot || s == PidSlot
    case CommandLabel => s == ProcessSlot
    case VersionLabel => s == VersionSlot
    case OSVersionLabel => s == OSVersionSlot
    case CodeTypeLabel => s == CodeTypeSlot
    case ExceptionTypeLabel => s == ExceptionTypeSlot
    case UserIDLabel => s == UidSlot
    case DateTimeLabel => s == DateSlot
    case PathLabel => s == PathSlot
  }

  predicate LineWrites(line: string, s: Slot) {
    Classify(line).Some? && Writes(Classify(line).value, s)
  }

  /** `Apply` leaves the slots its label does not write alone, and writes the same whatever the fields before. */
  lemma {:induction false} ApplyFrame(f: Fields, g: Fields, l: Label, caps: seq<string>, fmt: Formatting, s: Slot)
    requires |caps| == Arity(PatternOf(l))
    requires Apply(f, l, caps, fmt).Some?
    ensures Apply(g, l, caps, fmt).Some?
    ensures !Writes(l, s) ==> Get(Apply(f, l, caps, fmt).value, s) == Get(f, s)
    ensures Writes(l, s) ==> Get(Apply(f, l, caps, fmt).value, s) == Get(Apply(g, l, caps, fmt).value, s)
  {
    match l
    case ProcessLabel =>
    case UserIDLabel =>
    case DateTimeLabel =>
    case _ =>
      assert Apply(f, l, caps, fmt) == Some(Store(f, l, Trim(caps[0])));
      assert Apply(g, l, caps, fmt) == Some(Store(g, l, Trim(caps[0])));
  }

  /**
   * An accepted line leaves the slots it does not write alone, and what it
   * writes depends on the line only, not on the fields read before it.
   */
  lemma StepFrame(f: Fields, g: Fields, line: string, fmt: Formatting, s: Slot)
    requires Step(f, line, fmt).Some?
    ensures Step(g, line, fmt).Some?
    ensures !LineWrites(line, s) ==> Get(Step(f, line, fmt).value, s) == Get(f, s)
    ensures LineWrites(line, s) ==> Get(Step(f, line, fmt).value, s) == Get(Step(g, line, fmt).value, s)
  {
    if Classify(line).Some? {
      var l := Classify(line).value;
      var caps := Matches(line, PatternOf(l)).value;
      assert Step(f, line, fmt) == Apply(f, l, caps, fmt);
      assert Step(g, line, fmt) == Apply(g, l, caps, fmt);
      ApplyFrame(f, g, l, caps, fmt, s);
    }
  }

  /** A slot no line writes keeps the value it had before the scan. */
  lemma {:induction false} NoWriterKeeps(f: Fields, lines: seq<string>, fmt: Formatting, s: Slot)
    requires ScanLines(f, lines, fmt).Some?
    requires forall k :: 0 <= k < |lines| ==> !LineWrites(lines[k], s)
    decreases |lines|
    ensures Get(ScanLines(f, lines, fmt).value, s) == Get(f, s)
  {
    if lines != [] {
      var g := Step(f, lines[0], fmt).value;
      StepFrame(f, f, lines[0], fmt, s);
      assert forall k :: 0 <= k < |lines| - 1 ==> lines[1..][k] == lines[k + 1];
      NoWriterKeeps(g, lines[1..], fmt, s);
    }
  }

  /** The last line that writes a slot decides it; every earlier one is overwritten. */
  lemma {:induction false} LastWriterWins(f: Fields, lines: seq<string>, fmt: Formatting, s: Slot, j: nat)
    requires ScanLines(f, lines, fmt).Some?
    requires j < |lines| && LineWrites(lines[j], s)
    requires forall k :: j < k < |lines| ==> !LineWrites(lines[k], s)
    decreases |lines|
    ensures Step(f, lines[j], fmt).Some?
    ensures Get(ScanLines(f, lines, fmt).value, s) == Get(Step(f, lines[j], fmt).value, s)
  {
    var g := Step(f, lines[0], fmt).value;
    var rest := lines[1..];
    assert ScanLines(f, lines, fmt) == ScanLines(g, rest, fmt);
    assert forall k :: 0 <= k < |rest| ==> rest[k] == lines[k + 1];
    if j == 0 {
      NoWriterKeeps(g, rest, fmt, s);
    } else {
      assert rest[j - 1] == lines[j];
      LastWriterWins(g, rest, fmt, s, j - 1);
      StepFrame(g, f, lines[j], fmt, s);
    }
  }

  /** Among the lines from `i` on that write a slot, there is a last one. */
  lemma LastWriterExists(lines: seq<string>, s: Slot, i: nat) returns (j: nat)
    requires i < |lines| && LineWrites(lines[i], s)
    decreases |lines| - i
    ensures i <= j < |lines| && LineWrites(lines[j], s)
    ensures forall k :: j < k < |lines| ==> !LineWrites(lines[k], s)
  {
    if k :| i < k < |lines| && LineWrites(lines[k], s) {
      j := LastWriterExists(lines, s, k);
    } else {
      j := i;
    }
  }

  // ---------------------------------------------------------------------
  // Placeholders
  // ---------------------------------------------------------------------

  /** A field after the "--" fix-up: non-empty, the scanned text if there was any, "--" otherwise. */
  predicate FilledFrom(scanned: Option<string>, shown: Option<string>) {
    shown.Some? && shown.value != []
    && (scanned.Some? && scanned.value != [] ==> shown == scanned)
    && (scanned.None? || scanned.value == [] ==> shown == Some("--"))
  }

  /** The construction fills the six text fields and keeps every other field as scanned. */
  lemma FinishedFillsPlaceholders(kind: Kind, path: string, contents: string, scanned: Fields)
    ensures var g := Finished(kind, path, contents, scanned).fields;
      FilledFrom(scanned.version, g.version) && FilledFrom(scanned.osVersion, g.osVersion)
      && FilledFrom(scanned.codeType, g.codeType) && FilledFrom(scanned.exceptionType, g.exceptionType)
      && FilledFrom(scanned.pidString, g.pidString) && FilledFrom(scanned.uidString, g.uidString)
      && g.process == scanned.process && g.pid == scanned.pid && g.uid == scanned.uid
      && g.pidNumber == scanned.pidNumber && g.uidNumber == scanned.uidNumber
      && g.date == scanned.date && g.processPath == scanned.processPath
  {
  }

  /** A `%u` rendering is never the "--" placeholder. */
  lemma RenderingIsNotPlaceholder(n: nat, w: Width)
    ensures FormatUnsigned(n, w) != "--"
  {
    var r := FormatUnsigned(n, w);
    assert IsDigit(r[0]);
  }

  /** What an accepted `Process:` or `User ID:` line puts in its rendered field: digits, never "--". */
  lemma StepRendersDigits(f: Fields, line: string, fmt: Formatting, s: Slot)
    requires s == PidSlot || s == UidSlot
    requires Step(f, line, fmt).Some? && LineWrites(line, s)
    ensures var r := Get(Step(f, line, fmt).value, s).rendered;
      r.Some? && r.value != [] && AllDigits(r.value) && r.value != "--"
  {
    var l := Classify(line).value;
    var caps := Matches(line, PatternOf(l)).value;
    assert Step(f, line, fmt) == Apply(f, l, caps, fmt);
    if l == ProcessLabel {
      RenderingIsNotPlaceholder(ParseCount(caps[1]), fmt.unsignedWidth);
    } else {
      RenderingIsNotPlaceholder(ParseCount(caps[0]), fmt.unsignedWidth);
    }
  }

  /**
   * `pidString` (for `PidSlot`) or `uidString` (for `UidSlot`) of a constructed
   * report is "--" exactly when no `Process:` (resp. `User ID:`) line was read.
   */
  lemma RenderedPlaceholderIff(path: string, contents: string, fmt: Formatting, s: Slot)
    requires s == PidSlot || s == UidSlot
    requires Parse(path, contents, fmt).Some?
    ensures Get(Parse(path, contents, fmt).value.fields, s).rendered == Some("--")
      <==> forall k :: 0 <= k < |Lines(contents)| ==> !LineWrites(Lines(contents)[k], s)
  {
    ParseOutcomes(path, contents, fmt);
    var lines := Lines(contents);
    var scanned := ScanLines(Initial, lines, fmt).value;
    FinishedFillsPlaceholders(KindOfPath(path).value, path, contents, scanned);
    if i :| 0 <= i < |lines| && LineWrites(lines[i], s) {
      var j := LastWriterExists(lines, s, i);
      LastWriterWins(Initial, lines, fmt, s, j);
      StepRendersDigits(Initial, lines[j], fmt, s);
    } else {
      NoWriterKeeps(Initial, lines, fmt, s);
    }
  }

  // ---------------------------------------------------------------------
  // What a `Process:` line sets
  // ---------------------------------------------------------------------

  /**
   * A matched `Process:` line holds, after the label and its whitespace, the
   * captured name and the bracketed digits; it sets `process` to the name
   * trimmed of spaces and tabs, `pid` to the digits' value (0 when it does
   * not fit in 64 bits), and `pidString` to its `%u` rendering.
   */
  lemma ProcessLineFields(f: Fields, line: string, fmt: Formatting, name: string, digits: string)
    requires Classify(line) == Some(ProcessLabel)
    requires Matches(line, PatternOf(ProcessLabel)) == Some([name, digits])
    ensures exists i: nat, w: nat :: i <= |line| && NameAndPidAt(line, i, "Process:", w, name, digits)
    ensures AllDigits(digits) && Step(f, line, fmt).Some?
    ensures var pid := if DecimalValue(digits) <= UIntMax then DecimalValue(digits) else 0;
      Step(f, line, fmt).value == f.(process := Trim(name), pid := pid, pidNumber := Some(pid),
                                      pidString := Some(FormatUnsigned(pid, fmt.unsignedWidth)))
  {
    MatchesLeftmost(line, PatternOf(ProcessLabel));
    var i :| 0 <= i <= |line| && Matches(line, PatternOf(ProcessLabel)) == MatchAt(line, i, PatternOf(ProcessLabel));
    NameAndPidSound(line, i, "Process:", name, digits);
    assert Step(f, line, fmt) == Apply(f, ProcessLabel, [name, digits], fmt);
  }

  // ---------------------------------------------------------------------
  // Bundle path and icon file
  // ---------------------------------------------------------------------

  /**
   * An absolute path containing ".app/Contents/MacOS" yields the bundle: the
   * path cut after the ".app" of the first occurrence. Any other path yields none.
   */
  lemma BundlePathShape(p: string)
    ensures BundlePath(p).Some? <==> (|p| > 0 && p[0] == '/' && exists k :: OccursAt(p, BundleMarker, k))
    ensures BundlePath(p).Some? ==>
      var app := BundlePath(p).value;
      var k := |app| - 4;
      5 <= |app| < |p| && app == p[..|app|] && app[k..] == ".app"
      && OccursAt(p, BundleMarker, k)
      && forall k' :: 0 <= k' < k ==> !OccursAt(p, BundleMarker, k')
  {
    HasPrefixIff(p, "/");
    if |p| > 0 && p[0] == '/' {
      match Find(p, BundleMarker)
      case None =>
      case Some(k) =>
        assert p[k..k + 19] == BundleMarker;
        assert BundleMarker[..4] == ".app";
        assert p[k..k + 4] == p[k..k + 19][..4];
    }
  }

  /**
   * The file whose icon a report shows is always absolute: the bundle of an
   * absolute executable path, the executable path itself when it lies in no
   * bundle, and "/bin/ls" when the path is missing, empty or relative.
   */
  lemma IconFileShape(processPath: Option<string>)
    ensures var file := IconFile(processPath);
      |file| > 0 && file[0] == '/'
    ensures processPath.None? || |processPath.value| == 0 || processPath.value[0] != '/' ==>
      IconFile(processPath) == "/bin/ls"
    ensures processPath.Some? && |processPath.value| > 0 && processPath.value[0] == '/' ==>
      var p := processPath.value;
      var file := IconFile(processPath);
      |file| <= |p| && file == p[..|file|]
      && (file == p <==> !exists k :: OccursAt(p, BundleMarker, k))
      && (BundlePath(p).Some? ==> file == BundlePath(p).value)
  {
    if processPath.Some? {
      var p := processPath.value;
      HasPrefixIff(p, "/");
      BundlePathShape(p);
    }
  }

  // ---------------------------------------------------------------------
  // Findings
  // ---------------------------------------------------------------------

  /**
   * As written, the fallback of the `Date/Time:` branch asks the first
   * formatter again: the second one is never consulted, so a date only it
   * reads rejects the report.
   */
  lemma SourceDateIgnoresSecondFormat(format1: DateParser, format2: DateParser, str: string)
    ensures ParseDate(SourceFormatting(format1, format2), str) == format1(str)
  {
  }

  /** A date written without milliseconds, which only the second format reads, rejects the report as written. */
  lemma SourceRejectsSecondFormatDate(path: string, contents: string, format1: DateParser, format2: DateParser,
                                      i: nat, c: string)
    requires i < |Lines(contents)|
    requires Classify(Lines(contents)[i]) == Some(DateTimeLabel)
    requires Matches(Lines(contents)[i], PatternOf(DateTimeLabel)) == Some([c])
    requires format1(Trim(c)).None? && format2(Trim(c)).Some?
    ensures Parse(path, contents, SourceFormatting(format1, format2)).None?
  {
    UnreadableDateRejects(path, contents, SourceFormatting(format1, format2), i, c);
  }

  /** With the fallback that was meant, a date either format reads is accepted, the first format taking precedence. */
  lemma IntendedDateFallback(format1: DateParser, format2: DateParser, line: string, c: string)
    requires Classify(line) == Some(DateTimeLabel)
    requires Matches(line, PatternOf(DateTimeLabel)) == Some([c])
    ensures LineAccepted(line, IntendedFormatting(format1, format2))
      <==> format1(Trim(c)).Some? || format2(Trim(c)).Some?
    ensures format1(Trim(c)).Some? ==> ParseDate(IntendedFormatting(format1, format2), Trim(c)) == format1(Trim(c))
    ensures format1(Trim(c)).None? ==> ParseDate(IntendedFormatting(format1, format2), Trim(c)) == format2(Trim(c))
  {
    var fmt := IntendedFormatting(format1, format2);
    assert fmt.primaryDate == format1 && fmt.fallbackDate == format2;
    DateLineAcceptedIff(line, fmt, c);
  }

  /**
   * As written, `%u` renders only the low 32 bits of the 64-bit pid or uid:
   * every value from 2^32 up is shown as a different number.
   */
  lemma SourceRenderingTruncates(n: nat)
    requires 0x1_0000_0000 <= n <= UIntMax
    ensures DecimalValue(FormatUnsigned(n, Low32)) == n % 0x1_0000_0000
    ensures DecimalValue(FormatUnsigned(n, Low32)) != n
  {
    DecimalRoundTrip(n % 0x1_0000_0000);
  }

  /** Rendering all 64 bits, as intended, gives back every value a `UInt` holds. */
  lemma IntendedRenderingRoundTrip(n: nat)
    requires n <= UIntMax
    ensures DecimalValue(FormatUnsigned(n, Full64)) == n
  {
    assert n % Modulus(Full64) == n;
    DecimalRoundTrip(n);
  }
}
