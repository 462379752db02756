/**
 * A diagnostic report file (crash, spin, hang or diagnostic log) and the
 * parser that turns its text into typed fields.
 *
 * The specification level is pure: `KindOfPath` classifies a path, `Step`
 * applies one line, `ScanLines` applies all of them in order and `Parse` is
 * the whole failable construction. The class `DiagnosticReport` is the
 * object the source builds: its fields are overwritten line by line, and its
 * methods are proved to compute exactly what the functions describe.
 *
 * Date parsing is a pair of function parameters (the two date formatters),
 * and the width `%u` renders is a parameter too, so that the source's
 * configuration and the evidently intended one are both expressible.
 */
module Reports {
  import opened Wrappers
  import opened Text
  import opened Matching

  // ---------------------------------------------------------------------
  // Kinds and the path extension
  // ---------------------------------------------------------------------

  datatype Kind = Unknown | Crash | Spin | Hang | Diag

  /** The human-readable name of a kind (`typeString`). */
  function TypeString(k: Kind): (s: string)
    ensures s == "Unknown" <==> k == Unknown
    ensures s == "Crash" <==> k == Crash
    ensures s == "Spin" <==> k == Spin
    ensures s == "Hang" <==> k == Hang
    ensures s == "Diagnostic" <==> k == Diag
  {
    match k
    case Unknown => "Unknown"
    case Crash => "Crash"
    case Spin => "Spin"
    case Hang => "Hang"
    case Diag => "Diagnostic"
  }

  /** The file extension each known kind is read from. */
  function ExtensionName(k: Kind): string
    requires k != Unknown
  {
    match k
    case Crash => "crash"
    case Spin => "spin"
    case Hang => "hang"
    case Diag => "diag"
  }

  function KindOfExtension(ext: string): Option<Kind> {
    if ext == "crash" then Some(Crash)
    else if ext == "spin" then Some(Spin)
    else if ext == "hang" then Some(Hang)
    else if ext == "diag" then Some(Diag)
    else None
  }

  /** Trailing slashes are ignored, though a lone "/" stays. */
  function TrimTrailingSlashes(s: string): (r: string)
    ensures |r| <= |s| && r == s[..|r|]
  {
    if |s| > 1 && s[|s| - 1] == '/' then TrimTrailingSlashes(s[..|s| - 1]) else s
  }

  /** The text after the last "/". */
  function LastComponent(s: string): (r: string)
    ensures |r| <= |s| && r == s[|s| - |r|..]
    ensures '/' !in r
    ensures |r| < |s| ==> s[|s| - |r| - 1] == '/'
  {
    if s == [] || s[|s| - 1] == '/' then []
    else LastComponent(s[..|s| - 1]) + [s[|s| - 1]]
  }

  /** The position of the last `c` in `s`. */
  function LastIndexOf(s: string, c: char): (r: Option<nat>)
    ensures r.Some? ==> r.value < |s| && s[r.value] == c && c !in s[r.value + 1..]
    ensures r.None? ==> c !in s
  {
    if s == [] then None
    else if s[|s| - 1] == c then Some(|s| - 1)
    else LastIndexOf(s[..|s| - 1], c)
  }

  /**
   * NSString's `pathExtension`: the text after the last "." of the last path
   * component, or "" when there is none or the dot opens the component.
   */
  function PathExtension(path: string): string {
    var c := LastComponent(TrimTrailingSlashes(path));
    match LastIndexOf(c, '.')
    case None => ""
    case Some(k) => if k == 0 then "" else c[k + 1..]
  }

  /** The kind of a report file; none for any other extension. */
  function KindOfPath(path: string): Option<Kind> {
    KindOfExtension(PathExtension(path))
  }

  lemma LastComponentOfAppend(s: string, t: string)
    requires '/' !in t
    ensures LastComponent(s + t) == LastComponent(s) + t
  {
    if t != [] {
      assert (s + t)[..|s + t| - 1] == s + t[..|t| - 1];
      LastComponentOfAppend(s, t[..|t| - 1]);
    } else {
      assert s + t == s;
    }
  }

  lemma {:induction false} LastIndexOfAfter(s: string, c: char, t: string)
    requires c !in t
    ensures LastIndexOf(s + [c] + t, c) == Some(|s|)
  {
    var u := s + [c] + t;
    if t == [] {
      assert u[|u| - 1] == c;
    } else {
      assert u[|u| - 1] == t[|t| - 1];
      assert u[..|u| - 1] == s + [c] + t[..|t| - 1];
      LastIndexOfAfter(s, c, t[..|t| - 1]);
    }
  }

  lemma LastComponentNonEmpty(s: string)
    requires s != [] && s[|s| - 1] != '/'
    ensures LastComponent(s) != []
  {
  }

  /** The extension of a last component whose final "." comes after its first character. */
  lemma PathExtensionOfComponent(path: string, c: string, k: nat)
    requires path != [] && path[|path| - 1] != '/'
    requires LastComponent(path) == c
    requires LastIndexOf(c, '.') == Some(k) && k > 0
    ensures PathExtension(path) == c[k + 1..]
  {
  }

  /** The extension of `<stem>.<ext>` is `ext` whenever `ext` holds no "." or "/". */
  lemma PathExtensionOfAppend(stem: string, ext: string)
    requires stem != [] && stem[|stem| - 1] != '/'
    requires ext != [] && '.' !in ext && '/' !in ext
    ensures PathExtension(stem + "." + ext) == ext
  {
    var path := stem + ("." + ext);
    assert path == stem + "." + ext;
    LastComponentOfAppend(stem, "." + ext);
    var lc := LastComponent(stem);
    LastComponentNonEmpty(stem);
    assert lc + ("." + ext) == lc + ['.'] + ext;
    LastIndexOfAfter(lc, '.', ext);
    assert (lc + ['.'] + ext)[|lc| + 1..] == ext;
    assert path[|path| - 1] == ext[|ext| - 1];
    PathExtensionOfComponent(path, lc + ['.'] + ext, |lc|);
  }

  /** A file named `<stem>.<extension of k>` is classified as `k`. */
  lemma KindOfPathRoundTrip(stem: string, k: Kind)
    requires k != Unknown
    requires stem != [] && stem[|stem| - 1] != '/'
    ensures KindOfPath(stem + "." + ExtensionName(k)) == Some(k)
  {
    var ext := ExtensionName(k);
    ExtensionNameIsPlain(k);
    PathExtensionOfAppend(stem, ext);
    KindOfExtensionOfName(k);
  }

  lemma ExtensionNameIsPlain(k: Kind)
    requires k != Unknown
    ensures ExtensionName(k) != [] && '.' !in ExtensionName(k) && '/' !in ExtensionName(k)
  {
    match k
    case Crash => assert ExtensionName(k) == ['c', 'r', 'a', 's', 'h'];
    case Spin => assert ExtensionName(k) == ['s', 'p', 'i', 'n'];
    case Hang => assert ExtensionName(k) == ['h', 'a', 'n', 'g'];
    case Diag => assert ExtensionName(k) == ['d', 'i', 'a', 'g'];
  }

  /** Each kind's extension is classified as that kind. */
  lemma KindOfExtensionOfName(k: Kind)
    requires k != Unknown
    ensures KindOfExtension(ExtensionName(k)) == Some(k)
  {
  }

  /** Only the four extensions are accepted, compared exactly, and `Unknown` is never produced. */
  lemma KindOfPathOnlyKnown(path: string)
    ensures KindOfPath(path).Some? <==> PathExtension(path) in {"crash", "spin", "hang", "diag"}
    ensures KindOfPath(path).Some? ==>
      KindOfPath(path).value != Unknown && ExtensionName(KindOfPath(path).value) == PathExtension(path)
  {
  }

  // ---------------------------------------------------------------------
  // Opaque collaborators: dates, icons, number formatting
  // ---------------------------------------------------------------------

  /** An instant; the formatters' calendar arithmetic is not modelled. */
  datatype Date = Instant(milliseconds: int)

  /** A `DateFormatter` with a fixed pattern: a date, or none if the text does not fit. */
  type DateParser = string -> Option<Date>

  /**
   * The collaborators the parser consults: the date formatter tried first,
   * the one tried when it fails, and the width in bits that `%u` prints.
   */
  datatype Formatting = Formatting(primaryDate: DateParser, fallbackDate: DateParser, unsignedWidth: Width)

  /**
   * The configuration the source runs with: the fallback retries the first
   * formatter (`yyyy-MM-dd HH:mm:ss.SSS ZZZ`), and `String(format: "%u", pid)`
   * prints the low 32 bits of a 64-bit `UInt`.
   */
  function SourceFormatting(format1: DateParser, format2: DateParser): Formatting {
    Formatting(format1, format1, Low32)
  }

  /** The evidently intended configuration: fall back to `yyyy-MM-dd HH:mm:ss ZZZ`, print all 64 bits. */
  function IntendedFormatting(format1: DateParser, format2: DateParser): Formatting {
    Formatting(format1, format2, Full64)
  }

  /** How many bits of its argument `%u` prints: the low 32, or all 64 of a `UInt`. */
  datatype Width = Low32 | Full64

  /** The number of distinct values of a width. */
  function Modulus(w: Width): nat {
    match w
    case Low32 => 0x1_0000_0000
    case Full64 => UIntMax + 1
  }

  /** `String(format: "%u", n)` when `%u` reads `w` of the argument. */
  function FormatUnsigned(n: nat, w: Width): string {
    Decimal(n % Modulus(w))
  }

  /** An icon, identified by the file `NSWorkspace` was asked about. */
  datatype Icon = IconForFile(file: string)

  // ---------------------------------------------------------------------
  // Labels, fields and one line
  // ---------------------------------------------------------------------

  datatype Label =
    | ProcessLabel | CommandLabel | VersionLabel | OSVersionLabel | CodeTypeLabel
    | ExceptionTypeLabel | UserIDLabel | DateTimeLabel | PathLabel

  function Prefix(l: Label): string {
    match l
    case ProcessLabel => "Process:"
    case CommandLabel => "Command:"
    case VersionLabel => "Version:"
    case OSVersionLabel => "OS Version:"
    case CodeTypeLabel => "Code Type:"
    case ExceptionTypeLabel => "Exception Type:"
    case UserIDLabel => "User ID:"
    case DateTimeLabel => "Date/Time:"
    case PathLabel => "Path:"
  }

  function PatternOf(l: Label): Pattern {
    match l
    case ProcessLabel => NameAndPid("Process:")
    case UserIDLabel => Number("User ID:")
    case _ => Remainder(Prefix(l))
  }

  /** The label a line starts with, tried in the source's order. */
  function Classify(line: string): (r: Option<Label>)
    ensures r.Some? ==> HasPrefix(line, Prefix(r.value))
    ensures r.None? ==> forall l: Label :: !HasPrefix(line, Prefix(l))
  {
    if HasPrefix(line, "Process:") then Some(ProcessLabel)
    else if HasPrefix(line, "Command:") then Some(CommandLabel)
    else if HasPrefix(line, "Version:") then Some(VersionLabel)
    else if HasPrefix(line, "OS Version:") then Some(OSVersionLabel)
    else if HasPrefix(line, "Code Type:") then Some(CodeTypeLabel)
    else if HasPrefix(line, "Exception Type:") then Some(ExceptionTypeLabel)
    else if HasPrefix(line, "User ID:") then Some(UserIDLabel)
    else if HasPrefix(line, "Date/Time:") then Some(DateTimeLabel)
    else if HasPrefix(line, "Path:") then Some(PathLabel)
    else None
  }

  /** The report's fields as `parseContents` leaves them. */
  datatype Fields = Fields(
    process: string,
    pid: nat,
    uid: nat,
    pidNumber: Option<nat>,
    uidNumber: Option<nat>,
    pidString: Option<string>,
    uidString: Option<string>,
    version: Option<string>,
    osVersion: Option<string>,
    codeType: Option<string>,
    exceptionType: Option<string>,
    date: Option<Date>,
    processPath: Option<string>)

  /** The fields' declared initial values. */
  const Initial: Fields :=
    Fields("", 0, 0, None, None, None, None, None, None, None, None, None, None)

  /** `UInt(s) ?? 0` on a capture. */
  function ParseCount(s: string): (n: nat)
    ensures n <= UIntMax
  {
    if AllDigits(s) then ParseUInt(s) else 0
  }

  /** The date of a `Date/Time:` value: the first formatter, then the fallback. */
  function ParseDate(fmt: Formatting, str: string): Option<Date> {
    match fmt.primaryDate(str)
    case Some(d) => Some(d)
    case None => fmt.fallbackDate(str)
  }

  /** The field a label whose value is kept as text stores into. */
  function Store(f: Fields, l: Label, value: string): Fields {
    match l
    case CommandLabel => f.(process := value)
    case VersionLabel => f.(version := Some(value))
    case OSVersionLabel => f.(osVersion := Some(value))
    case CodeTypeLabel => f.(codeType := Some(value))
    case ExceptionTypeLabel => f.(exceptionType := Some(value))
    case PathLabel => f.(processPath := Some(value))
    case _ => f
  }

  /** What one recognised line does to the fields, given its captures. */
  function Apply(f: Fields, l: Label, caps: seq<string>, fmt: Formatting): Option<Fields>
    requires |caps| == Arity(PatternOf(l))
  {
    match l
    case ProcessLabel =>
      var pid := ParseCount(caps[1]);
      Some(f.(process := Trim(caps[0]), pid := pid, pidNumber := Some(pid),
              pidString := Some(FormatUnsigned(pid, fmt.unsignedWidth))))
    case UserIDLabel =>
      var uid := ParseCount(caps[0]);
      Some(f.(uid := uid, uidNumber := Some(uid),
              uidString := Some(FormatUnsigned(uid, fmt.unsignedWidth))))
    case DateTimeLabel =>
      (match ParseDate(fmt, Trim(caps[0]))
       case None => None
       case Some(d) => Some(f.(date := Some(d))))
    case _ => Some(Store(f, l, Trim(caps[0])))
  }

  /** One iteration of the loop in `parseContents`; none means "return false". */
  function Step(f: Fields, line: string, fmt: Formatting): Option<Fields> {
    match Classify(line)
    case None => Some(f)
    case Some(l) =>
      match Matches(line, PatternOf(l))
      case None => None
      case Some(caps) => Apply(f, l, caps, fmt)
  }

  /** The loop of `parseContents` over all lines, stopping at the first rejected one. */
  function ScanLines(f: Fields, lines: seq<string>, fmt: Formatting): Option<Fields>
    decreases |lines|
  {
    if lines == [] then Some(f)
    else
      match Step(f, lines[0], fmt)
      case None => None
      case Some(g) => ScanLines(g, lines[1..], fmt)
  }

  // ---------------------------------------------------------------------
  // Placeholders, bundle path, icon, and the whole construction
  // ---------------------------------------------------------------------

  /** `if (x ?? "").count == 0 { x = "--" }`. */
  function Placeholder(v: Option<string>): string {
    if v.None? || v.value == "" then "--" else v.value
  }

  function WithPlaceholders(f: Fields): Fields {
    f.(version := Some(Placeholder(f.version)),
       osVersion := Some(Placeholder(f.osVersion)),
       codeType := Some(Placeholder(f.codeType)),
       exceptionType := Some(Placeholder(f.exceptionType)),
       pidString := Some(Placeholder(f.pidString)),
       uidString := Some(Placeholder(f.uidString)))
  }

  const BundleMarker: string := ".app/Contents/MacOS"

  /**
   * The application bundle an absolute executable path lies in: the path cut
   * after the ".app" of the first ".app/Contents/MacOS".
   */
  function BundlePath(processPath: string): Option<string> {
    if |processPath| != 0 && HasPrefix(processPath, "/") then
      match Find(processPath, BundleMarker)
      case None => None
      case Some(k) => Some(processPath[..k + 4])
    else None
  }

  /** The file whose icon the report shows. */
  function IconFile(processPath: Option<string>): string {
    if processPath.Some? && |processPath.value| != 0 && HasPrefix(processPath.value, "/") then
      match BundlePath(processPath.value)
      case Some(app) => if |app| > 0 then app else processPath.value
      case None => processPath.value
    else "/bin/ls"
  }

  /** A constructed report. */
  datatype Report = Report(kind: Kind, path: string, contents: string, fields: Fields, icon: Option<Icon>) {
    function Process(): string { fields.process }
  }

  /** `init?(path:)` on a file's decoded contents; none when construction fails. */
  function Parse(path: string, contents: string, fmt: Formatting): Option<Report> {
    match KindOfPath(path)
    case None => None
    case Some(kind) =>
      match ScanLines(Initial, Lines(contents), fmt)
      case None => None
      case Some(f) => Some(Finished(kind, path, contents, f))
  }

  /** The report once its fields are scanned: placeholders filled and the icon chosen. */
  function Finished(kind: Kind, path: string, contents: string, scanned: Fields): Report {
    var g := WithPlaceholders(scanned);
    Report(kind, path, contents, g, Some(IconForFile(IconFile(g.processPath))))
  }

  // ---------------------------------------------------------------------
  // The object the source builds
  // ---------------------------------------------------------------------

  class DiagnosticReport {
    var kind: Kind
    var path: string
    var contents: string
    var pid: nat
    var uid: nat
    var process: string
    var pidNumber: Option<nat>
    var uidNumber: Option<nat>
    var pidString: Option<string>
    var uidString: Option<string>
    var version: Option<string>
    var date: Option<Date>
    var processPath: Option<string>
    var osVersion: Option<string>
    var codeType: Option<string>
    var exceptionType: Option<string>
    var icon: Option<Icon>

    function ParsedFields(): Fields
      reads this
    {
      Fields(process, pid, uid, pidNumber, uidNumber, pidString, uidString,
             version, osVersion, codeType, exceptionType, date, processPath)
    }

    function Snapshot(): Report
      reads this
    {
      Report(kind, path, contents, ParsedFields(), icon)
    }

    constructor (kind: Kind, path: string, contents: string)
      ensures this.kind == kind && this.path == path && this.contents == contents
      ensures ParsedFields() == Initial && icon == None
    {
      this.kind := kind;
      this.path := path;
      this.contents := contents;
      pid, uid, process := 0, 0, "";
      pidNumber, uidNumber, pidString, uidString := None, None, None, None;
      version, date, processPath := None, None, None;
      osVersion, codeType, exceptionType, icon := None, None, None, None;
    }

    /** `parseContents`: apply every line in order; false at the first rejected line. */
    method ParseContents(fmt: Formatting) returns (ok: bool)
      modifies this
      ensures kind == old(kind) && path == old(path) && contents == old(contents) && icon == old(icon)
      ensures ok <==> ScanLines(old(ParsedFields()), Lines(contents), fmt).Some?
      ensures ok ==> ParsedFields() == ScanLines(old(ParsedFields()), Lines(contents), fmt).value
    {
      var lines := Lines(contents);
      var i := 0;
      while i < |lines|
        invariant 0 <= i <= |lines|
        invariant kind == old(kind) && path == old(path) && contents == old(contents) && icon == old(icon)
        invariant ScanLines(old(ParsedFields()), lines, fmt) == ScanLines(ParsedFields(), lines[i..], fmt)
      {
        assert lines[i..][0] == lines[i] && lines[i..][1..] == lines[i + 1..];
        var accepted := ParseLine(lines[i], fmt);
        if !accepted {
          return false;
        }
        i := i + 1;
      }
      return true;
    }

    /** The body of the loop in `parseContents` for one line: dispatch on its prefix. */
    method ParseLine(line: string, fmt: Formatting) returns (ok: bool)
      modifies this
      ensures kind == old(kind) && path == old(path) && contents == old(contents) && icon == old(icon)
      ensures ok <==> Step(old(ParsedFields()), line, fmt).Some?
      ensures ok ==> ParsedFields() == Step(old(ParsedFields()), line, fmt).value
    {
      var found := Classify(line);
      if found.None? {
        ok := true;
      } else {
        ok := ParseLabelled(line, found.value, fmt);
      }
    }

    /** A line that starts with `Prefix(l)`: match its pattern and overwrite the label's fields. */
    method ParseLabelled(line: string, l: Label, fmt: Formatting) returns (ok: bool)
      modifies this
      ensures kind == old(kind) && path == old(path) && contents == old(contents) && icon == old(icon)
      ensures ok <==> (Matches(line, PatternOf(l)).Some?
        && Apply(old(ParsedFields()), l, Matches(line, PatternOf(l)).value, fmt).Some?)
      ensures ok ==> ParsedFields() == Apply(old(ParsedFields()), l, Matches(line, PatternOf(l)).value, fmt).value
    {
      var m := Matches(line, PatternOf(l));
      if m.None? {
        return false;
      }
      var caps := m.value;
      match l
      case ProcessLabel =>
        SetProcessAndPid(caps, fmt);
        ok := true;
      case UserIDLabel =>
        SetUid(caps, fmt);
        ok := true;
      case DateTimeLabel =>
        ok := SetDate(caps, fmt);
      case _ =>
        SetText(l, Trim(caps[0]));
        ok := true;
    }

    /** `Process:` sets the process name, the pid and its renderings. */
    method SetProcessAndPid(caps: seq<string>, fmt: Formatting)
      requires |caps| == 2
      modifies this
      ensures kind == old(kind) && path == old(path) && contents == old(contents) && icon == old(icon)
      ensures Apply(old(ParsedFields()), ProcessLabel, caps, fmt) == Some(ParsedFields())
    {
      var n := ParseCount(caps[1]);
      process, pid, pidNumber, pidString :=
        Trim(caps[0]), n, Some(n), Some(FormatUnsigned(n, fmt.unsignedWidth));
    }

    /** `User ID:` sets the uid and its renderings. */
    method SetUid(caps: seq<string>, fmt: Formatting)
      requires |caps| == 1
      modifies this
      ensures kind == old(kind) && path == old(path) && contents == old(contents) && icon == old(icon)
      ensures Apply(old(ParsedFields()), UserIDLabel, caps, fmt) == Some(ParsedFields())
    {
      var n := ParseCount(caps[0]);
      uid, uidNumber, uidString := n, Some(n), Some(FormatUnsigned(n, fmt.unsignedWidth));
    }

    /** `Date/Time:` sets the date, or fails when no formatter accepts the value. */
    method SetDate(caps: seq<string>, fmt: Formatting) returns (ok: bool)
      requires |caps| == 1
      modifies this
      ensures kind == old(kind) && path == old(path) && contents == old(contents) && icon == old(icon)
      ensures ok <==> Apply(old(ParsedFields()), DateTimeLabel, caps, fmt).Some?
      ensures ok ==> Apply(old(ParsedFields()), DateTimeLabel, caps, fmt) == Some(ParsedFields())
    {
      var str := Trim(caps[0]);
      var d := fmt.primaryDate(str);
      if d.None? {
        d := fmt.fallbackDate(str);
        if d.None? {
          return false;
        }
      }
      date := d;
      ok := true;
    }

    /** The labels whose trimmed remainder is stored as it is. */
    method SetText(l: Label, value: string)
      modifies this
      ensures kind == old(kind) && path == old(path) && contents == old(contents) && icon == old(icon)
      ensures ParsedFields() == Store(old(ParsedFields()), l, value)
    {
      match l
      case CommandLabel => process := value;
      case VersionLabel => version := Some(value);
      case OSVersionLabel => osVersion := Some(value);
      case CodeTypeLabel => codeType := Some(value);
      case ExceptionTypeLabel => exceptionType := Some(value);
      case PathLabel => processPath := Some(value);
      case _ =>
    }

    /** The six `"--"` fix-ups after a successful parse. */
    method FillPlaceholders()
      modifies this`version, this`osVersion, this`codeType, this`exceptionType, this`pidString, this`uidString
      ensures ParsedFields() == WithPlaceholders(old(ParsedFields()))
    {
      version := Some(Placeholder(version));
      osVersion := Some(Placeholder(osVersion));
      codeType := Some(Placeholder(codeType));
      exceptionType := Some(Placeholder(exceptionType));
      pidString := Some(Placeholder(pidString));
      uidString := Some(Placeholder(uidString));
    }

    /** The tail of `init?(path:)` once `parseContents` has succeeded. */
    method Complete()
      requires icon.None?
      modifies this
      ensures Snapshot() == Finished(old(kind), old(path), old(contents), old(ParsedFields()))
    {
      FillPlaceholders();
      ResolveIcon();
    }

    /** The icon lookup: the bundle, else the executable, else `/bin/ls`. */
    method ResolveIcon()
      requires icon.None?
      modifies this`icon
      ensures icon == Some(IconForFile(IconFile(processPath)))
    {
      if processPath.Some? && |processPath.value| != 0 && HasPrefix(processPath.value, "/") {
        var pp := processPath.value;
        var marker := Find(pp, BundleMarker);
        if marker.Some? {
          var app := pp[..marker.value + 4];
          if |app| > 0 {
            icon := Some(IconForFile(app));
          }
        }
        if icon.None? {
          icon := Some(IconForFile(pp));
        }
      } else {
        icon := Some(IconForFile("/bin/ls"));
      }
    }
  }

  /** `Parse` rejects a file for its extension or for a line, and otherwise finishes the scanned fields. */
  lemma ParseOutcomes(path: string, contents: string, fmt: Formatting)
    ensures KindOfPath(path).None? ==> Parse(path, contents, fmt).None?
    ensures KindOfPath(path).Some? ==>
      var scanned := ScanLines(Initial, Lines(contents), fmt);
      (scanned.None? ==> Parse(path, contents, fmt).None?)
      && (scanned.Some? ==>
            Parse(path, contents, fmt) == Some(Finished(KindOfPath(path).value, path, contents, scanned.value)))
  {
  }

  /**
   * `DiagnosticReport(path:)` given the file's decoded contents: a new report,
   * or null exactly when `Parse` rejects the file.
   */
  method Load(path: string, contents: string, fmt: Formatting) returns (r: DiagnosticReport?)
    ensures r == null <==> Parse(path, contents, fmt).None?
    ensures r != null ==> fresh(r) && r.Snapshot() == Parse(path, contents, fmt).value
  {
    ParseOutcomes(path, contents, fmt);
    var kind := KindOfPath(path);
    if kind.None? {
      return null;
    }
    r := new DiagnosticReport(kind.value, path, contents);
    var ok := r.ParseContents(fmt);
    if !ok {
      return null;
    }
    r.Complete();
  }
}
