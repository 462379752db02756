# Diagnostics: report parsing and grouping, modelled in Dafny

Diagnostics is a macOS application that lists the diagnostic reports the
system writes to `~/Library/Logs/DiagnosticReports`. These are crash, spin,
hang and diagnostic logs. This project models the non-UI core of the
application and proves properties of the model:

- **`DiagnosticReport`** (`diagnostic_report.dfy`, `report_properties.dfy`,
  with helpers in `text.dfy` and `matching.dfy`):
  - classifies a file by its path extension;
  - splits the decoded text into lines and overwrites one group of fields for
    each labelled line (`Process:`, `Command:`, `Version:`, `OS Version:`,
    `Code Type:`, `Exception Type:`, `User ID:`, `Date/Time:`, `Path:`);
  - rejects the whole file when a labelled line does not match its pattern, or
    when its date cannot be read;
  - fills the empty text fields with `"--"`;
  - chooses the file whose icon the report shows: the application bundle,
    else the executable, else `/bin/ls`.

  The parser is specified by pure functions (`KindOfPath`, `Step`,
  `ScanLines`, `Parse`). The class `DiagnosticReport` overwrites its fields
  line by line, as the source does, and its methods are proved to compute
  exactly what those functions describe. The three regular expressions are
  hand-written matchers (`Matching`). Each one is proved sound and complete
  against a declarative description of a match, and the leftmost match is
  the one taken.
- **`DiagnosticReportGroup`** (`report_group.dfy`): the reports of one
  process, the icon of the first report that had one, and a search index.
  On each `addReport` the index is rebuilt: the old index text and the new
  report's contents are concatenated, split on spaces, deduplicated and
  joined again.
- **`MainWindowController`** (`main_window_controller.dfy`):
  - `reload`, which does nothing while a reload is in progress; otherwise it
    rebuilds the groups from the delivered reports by "find the group led by
    this process, or create one";
  - `clickedOrSelectedItems`, the reports a command acts on;
  - `validateMenuItem`, which menu items are enabled.

Two collaborators become parameters of type `Formatting`: the two date
formatters, and the width that `String(format: "%u", …)` prints. With them,
both the configuration the source runs with (`SourceFormatting`) and the
evidently intended one (`IntendedFormatting`) can be stated.

Two consequences of the code are worth stating up front:

- A `Date/Time:` value that no formatter reads rejects the whole report.
- The search index depends on the order reports arrive in. The old index
  text and the new contents are joined with no separator, so the last word of
  one and the first word of the other fuse into one word
  (`IndexDependsOnArrivalOrder`).

## Model

| member | source | states |
|---|---|---|
| Reports.TypeString | Diagnostics/Classes/DiagnosticReport.swift:253-263 | Each kind has its own name: "Unknown", "Crash", "Spin", "Hang" and "Diagnostic", each given by exactly one kind. |
| Reports.KindOfPathRoundTrip | Diagnostics/Classes/DiagnosticReport.swift:152-167 | A file `<stem>.crash`, `.spin`, `.hang` or `.diag` is classified as that kind. |
| Reports.KindOfPathOnlyKnown | Diagnostics/Classes/DiagnosticReport.swift:152-171 | A path is accepted exactly when its extension is one of the four, compared exactly. The kind it gets is never `Unknown`, and its extension is the one that kind is read from. |
| Reports.Classify | Diagnostics/Classes/DiagnosticReport.swift:269-409 | A line gets a label only if it starts with that label's prefix. It gets none only when it starts with none of the nine. |
| Reports.DiagnosticReport.constructor | Diagnostics/Classes/DiagnosticReport.swift:183-188 | A new report holds its kind, path and contents, the fields at their declared initial values, and no icon. |
| Reports.DiagnosticReport.ParseContents | Diagnostics/Classes/DiagnosticReport.swift:265-412 | The loop over the lines succeeds exactly when `ScanLines` does. When it succeeds, the fields are the scan's result; kind, path, contents and icon are untouched. |
| Reports.DiagnosticReport.ParseLine | Diagnostics/Classes/DiagnosticReport.swift:271-408 | One iteration accepts the line exactly when `Step` does, and leaves the fields as `Step` says. |
| Reports.DiagnosticReport.ParseLabelled | Diagnostics/Classes/DiagnosticReport.swift:271-408 | A labelled line fails when its pattern does not match or its date is unreadable. Otherwise it overwrites exactly the fields `Apply` names. |
| Reports.DiagnosticReport.SetProcessAndPid | Diagnostics/Classes/DiagnosticReport.swift:278-286 | Sets the trimmed name, the pid (`UInt(...) ?? 0`), its number and its `%u` rendering. |
| Reports.DiagnosticReport.SetUid | Diagnostics/Classes/DiagnosticReport.swift:365-367 | Sets the uid, its number and its `%u` rendering. |
| Reports.DiagnosticReport.SetDate | Diagnostics/Classes/DiagnosticReport.swift:376-393 | The date comes from the first formatter, else from the fallback. The line fails exactly when neither reads it. |
| Reports.DiagnosticReport.SetText | Diagnostics/Classes/DiagnosticReport.swift:288-357 | `Command:`, `Version:`, `OS Version:`, `Code Type:`, `Exception Type:` and `Path:` each overwrite their one field with the trimmed value. |
| Reports.DiagnosticReport.FillPlaceholders | Diagnostics/Classes/DiagnosticReport.swift:195-223 | Each of the six text fields becomes "--" when it is missing or empty, and is kept otherwise. |
| Reports.DiagnosticReport.ResolveIcon | Diagnostics/Classes/DiagnosticReport.swift:225-245 | The icon is that of `IconFile(processPath)`: the bundle, else the executable, else `/bin/ls`. |
| Reports.DiagnosticReport.Complete | Diagnostics/Classes/DiagnosticReport.swift:195-245 | After a successful parse, the report is exactly `Finished` of the scanned fields. |
| Reports.Load | Diagnostics/Classes/DiagnosticReport.swift:142-246 | `init?(path:)` on the decoded contents returns null exactly when `Parse` rejects the file. Otherwise it returns a fresh report equal to `Parse`'s result. |
| Text.HasPrefixIff | Diagnostics/Classes/DiagnosticReport.swift:271 | `hasPrefix` holds exactly when the prefix is the line's first characters. |
| Text.TrimProperties | Diagnostics/Classes/DiagnosticReport.swift:278 | Trimming `.whitespaces` leaves no space or tab at either end. The result is empty exactly when the text is all spaces and tabs. |
| Text.LinesContent | Diagnostics/Classes/DiagnosticReport.swift:267 | The lines, written one after another, are the text with its line breaks removed, in order. |
| Text.LinesArePieces | Diagnostics/Classes/DiagnosticReport.swift:267 | Every line is a whole non-empty piece of the text, running from a line break or the start to the next line break or the end. |
| Text.LinesWellFormed | Diagnostics/Classes/DiagnosticReport.swift:267 | Each piece of `split(separator: "\n")` is non-empty. It holds no line feed except inside a CRLF pair. |
| Text.FindFrom | Diagnostics/Classes/DiagnosticReport.swift:227-229 | Answers the first occurrence at or after `from`, or none when there is no occurrence. |
| Text.ParseUInt | Diagnostics/Classes/DiagnosticReport.swift:284 | `UInt(digits) ?? 0`: the decimal value when it fits in 64 bits, 0 otherwise. |
| Text.DecimalRoundTrip | Diagnostics/Classes/DiagnosticReport.swift:286 | Reading back the decimal rendering of a number gives the number. |
| Text.Decimal | Diagnostics/Classes/DiagnosticReport.swift:286 | A rendering is non-empty, all digits, and has no leading zero. |
| Matching.FirstMatchFromLeftmost | Diagnostics/Classes/DiagnosticReport.swift:425 | The search stops at a position where a match starts, with none before it. It finds nothing only when no position matches. |
| Matching.MatchesLeftmost | Diagnostics/Classes/DiagnosticReport.swift:414-445 | `matches` returns captures exactly when the pattern matches somewhere, and they are those of the leftmost match. |
| Matching.RemainderMatchIff | Diagnostics/Classes/DiagnosticReport.swift:290 | `label\s+(.*)` captures `c` exactly when, after the label and all the whitespace after it, `c` runs up to the end or the first line terminator. |
| Matching.NumberMatchIff | Diagnostics/Classes/DiagnosticReport.swift:360 | `User ID:\s+([0-9]+)` captures `d` exactly when the whitespace is followed by all the digits `d`. |
| Matching.NameAndPidSound | Diagnostics/Classes/DiagnosticReport.swift:273 | A `Process:` capture is a name without `[`, followed by digits in square brackets, after whitespace. |
| Matching.NameAndPidComplete | Diagnostics/Classes/DiagnosticReport.swift:273 | Wherever the `Process:` pattern can match, the matcher matches there, and its pid capture is the bracketed digits. |
| ReportProperties.StepAcceptsIff | Diagnostics/Classes/DiagnosticReport.swift:269-408 | Whether a line is accepted does not depend on the fields read before it. |
| ReportProperties.ScanSucceedsIff | Diagnostics/Classes/DiagnosticReport.swift:265-412 | `parseContents` succeeds exactly when every line is accepted. |
| ReportProperties.ParseSucceedsIff | Diagnostics/Classes/DiagnosticReport.swift:142-193 | A file is accepted exactly when its extension is known and every line is accepted. |
| ReportProperties.RejectedLineRejects | Diagnostics/Classes/DiagnosticReport.swift:190-193 | A single rejected line rejects the file. |
| ReportProperties.DateLineAcceptedIff | Diagnostics/Classes/DiagnosticReport.swift:369-394 | A matched `Date/Time:` line is accepted exactly when a formatter reads its trimmed value. |
| ReportProperties.MalformedLineRejects | Diagnostics/Classes/DiagnosticReport.swift:273-276 | A labelled line whose pattern does not match rejects the file. |
| ReportProperties.UnreadableDateRejects | Diagnostics/Classes/DiagnosticReport.swift:381-386 | A date that no formatter reads rejects the file. |
| ReportProperties.UnlabelledLineIgnored | Diagnostics/Classes/DiagnosticReport.swift:269-409 | A line without a known label changes nothing. |
| ReportProperties.ScanUnlabelled | Diagnostics/Classes/DiagnosticReport.swift:265-412 | Text with no labelled line leaves the fields as they were. |
| ReportProperties.UnlabelledFileDefaults | Diagnostics/Classes/DiagnosticReport.swift:39-56 | A file of a known kind with no labelled line is accepted. Its process is empty, pid and uid are 0, it has no date and no path, and all six text fields are "--". |
| ReportProperties.ApplyFrame | Diagnostics/Classes/DiagnosticReport.swift:271-408 | A branch leaves every field it does not assign alone. What it writes does not depend on the fields before it. |
| ReportProperties.StepFrame | Diagnostics/Classes/DiagnosticReport.swift:269-409 | The same holds for one whole line. |
| ReportProperties.NoWriterKeeps | Diagnostics/Classes/DiagnosticReport.swift:269-409 | A field that no line writes keeps its value through the scan. |
| ReportProperties.LastWriterWins | Diagnostics/Classes/DiagnosticReport.swift:269-409 | The last line that writes a field decides it. Earlier writes are overwritten, and `Command:` after `Process:` replaces the process name. |
| ReportProperties.LastWriterExists | Diagnostics/Classes/DiagnosticReport.swift:269-409 | Among the lines that write a field there is a last one. |
| ReportProperties.FinishedFillsPlaceholders | Diagnostics/Classes/DiagnosticReport.swift:195-223 | The six text fields end up non-empty: the scanned text when there was some, "--" otherwise. No other field changes. |
| ReportProperties.RenderingIsNotPlaceholder | Diagnostics/Classes/DiagnosticReport.swift:286 | A `%u` rendering is never "--". |
| ReportProperties.StepRendersDigits | Diagnostics/Classes/DiagnosticReport.swift:283-286 | An accepted `Process:` or `User ID:` line stores a rendering made of digits. |
| ReportProperties.RenderedPlaceholderIff | Diagnostics/Classes/DiagnosticReport.swift:215-223 | A report's `pidString` (resp. `uidString`) is "--" exactly when no `Process:` (resp. `User ID:`) line was read. |
| ReportProperties.ProcessLineFields | Diagnostics/Classes/DiagnosticReport.swift:271-287 | A matched `Process:` line sets `process` to the trimmed name, `pid` to the bracketed digits' value (0 beyond 64 bits), and `pidString` to its rendering. |
| ReportProperties.BundlePathShape | Diagnostics/Classes/DiagnosticReport.swift:225-229 | An absolute path holding ".app/Contents/MacOS" yields the prefix ending in the ".app" of the first occurrence. Any other path yields none. |
| ReportProperties.IconFileShape | Diagnostics/Classes/DiagnosticReport.swift:225-245 | The icon file is always absolute: the bundle, the executable when it lies in no bundle, and "/bin/ls" for a missing, empty or relative path. |
| ReportProperties.SourceDateIgnoresSecondFormat | Diagnostics/Classes/DiagnosticReport.swift:381-386 | As written, the fallback asks the first formatter again, so the second is never consulted. |
| ReportProperties.SourceRejectsSecondFormatDate | Diagnostics/Classes/DiagnosticReport.swift:381-386 | As written, a date only the second format reads rejects the report. |
| ReportProperties.IntendedDateFallback | Diagnostics/Classes/DiagnosticReport.swift:58-76 | With the intended fallback, a date either format reads is accepted, and the first format takes precedence. |
| ReportProperties.SourceRenderingTruncates | Diagnostics/Classes/DiagnosticReport.swift:286 | As written, `%u` shows a pid of 2^32 or more as its value modulo 2^32. |
| ReportProperties.IntendedRenderingRoundTrip | Diagnostics/Classes/DiagnosticReport.swift:284-286 | Rendering all 64 bits gives back every `UInt` value. |
| Groups.FirstIconAppend | Diagnostics/Classes/DiagnosticReportGroup.swift:46-49 | After an append, the group icon is the old one if set, else the new report's. |
| Groups.Arrange | Diagnostics/Classes/DiagnosticReportGroup.swift:55-59 | A set is laid out as a sequence that holds each element exactly once. |
| Groups.ReportGroup.constructor | Diagnostics/Classes/DiagnosticReportGroup.swift:34-37 | A new group has its name, no report, no icon and no index. |
| Groups.ReportGroup.AddReport | Diagnostics/Classes/DiagnosticReportGroup.swift:44-61 | The name is unchanged and the report is appended. The icon is first-wins. The new index is distinct words joined by single spaces, and holds exactly the words of the old index text followed by the contents. |
| Groups.FirstIndexWords | Diagnostics/Classes/DiagnosticReportGroup.swift:53-55 | The first report's index holds exactly the distinct words of its contents. |
| Groups.NextIndexWordsOfConcat | Diagnostics/Classes/DiagnosticReportGroup.swift:53-55 | A later index keeps every old and new word. Only the old last word and the new first word fuse, and only when no space separates them. |
| Groups.IndexDependsOnArrivalOrder | Diagnostics/Classes/DiagnosticReportGroup.swift:53-59 | The contents "a" then "b" index {"ab"}, while "b" then "a" index {"ba"}. |
| Text.TokensOfJoin | Diagnostics/Classes/DiagnosticReportGroup.swift:54-59 | Splitting space-joined words without spaces gives the words back. |
| Text.TokensOfConcat | Diagnostics/Classes/DiagnosticReportGroup.swift:53-54 | The words of a concatenation are those of both parts, with the two boundary words fused when they touch. |
| Controller.FindGroupIsFirst | Diagnostics/Classes/MainWindowController.swift:377 | `groups.first { ... }` answers the first group whose first report has the process, or none. |
| Controller.IngestAllGroupsByProcess | Diagnostics/Classes/MainWindowController.swift:373-397 | After delivering reports in order, there is one group per process, named after it and led by it. It holds exactly that process's reports, in delivery order. |
| Controller.IngestIntoExisting | Diagnostics/Classes/MainWindowController.swift:377-388 | A report whose process has a group joins that group, and the grouping stays correct. |
| Controller.IngestIntoNew | Diagnostics/Classes/MainWindowController.swift:380-393 | A report whose process has no group starts a new group at the end, and the grouping stays correct. |
| Controller.MainWindowController.constructor | Diagnostics/Classes/MainWindowController.swift:30-33 | The window starts with no group and is neither initializing nor loading. |
| Controller.MainWindowController.FindGroupIndex | Diagnostics/Classes/MainWindowController.swift:377 | The search loop answers exactly `FindGroup` on the groups. |
| Controller.MainWindowController.BeginReload | Diagnostics/Classes/MainWindowController.swift:361-369 | While loading nothing changes. Otherwise the groups are emptied and both flags are raised. |
| Controller.MainWindowController.AddToGroup | Diagnostics/Classes/MainWindowController.swift:386-388 | `addReport` on the found group is `Ingest` on the groups, and the groups stay consistent. |
| Controller.MainWindowController.AddNewGroup | Diagnostics/Classes/MainWindowController.swift:380-393 | A new group is created, filled and added, which is `Ingest` on the groups. |
| Controller.MainWindowController.Deliver | Diagnostics/Classes/MainWindowController.swift:375-396 | Handling one report is `Ingest` on the groups. |
| Controller.MainWindowController.DeliverAll | Diagnostics/Classes/MainWindowController.swift:373-397 | Delivering the reports in order leaves exactly `IngestAll` of them. The window stops initializing once a report has arrived. |
| Controller.MainWindowController.FinishReload | Diagnostics/Classes/MainWindowController.swift:399 | Loading ends, and nothing else changes. |
| Controller.MainWindowController.Reload | Diagnostics/Classes/MainWindowController.swift:359-401 | A reload while loading changes nothing. Otherwise the groups become `IngestAll(reports)`, loading ends, and the window is still initializing exactly when no report arrived. |
| Controller.ClickedOrSelectedTargets | Diagnostics/Classes/MainWindowController.swift:99-134 | With a clicked row, the result is the selection when it contains that row's item, else that item alone. A click past the rows gives nothing, and no click gives the selection. |
| Controller.MenuItemEnabledTable | Diagnostics/Classes/MainWindowController.swift:403-448 | Reload is enabled exactly when not loading, and the report commands exactly when a row is clicked. The document commands are always enabled and anything else never is. Without an action, table or controller, nothing is enabled. |
| Controller.EnabledCommandTargets | Diagnostics/Classes/MainWindowController.swift:425-435 | An enabled report command acts on at least the clicked item, or on nothing when the click is past the last row. |

## Left out

- Reading the file is not modelled: its existence, the directory check, `FileManager.contents` and UTF-8 decoding. `Load` takes the decoded contents, and a file that cannot be read or decoded is rejected before the modelled part.
- `availableReports`, which walks the report directories, is not part of this model. `Reload` takes the reports it would deliver, in its order.
- `DateFormatter` is a pair of function parameters. Calendar and time-zone arithmetic are not modelled.
- `NSWorkspace.icon(forFile:)` is represented by the file it is asked about (`IconForFile`).
- `NSNumber` is represented by the number it boxes.
- `data` (the raw bytes) is not kept.
- Unicode: the model works on characters, not grapheme clusters. A `"\r\n"` pair is one `Character` in Swift and is therefore not split on `"\n"`; `Lines` reproduces this, but grapheme clustering beyond CRLF is not modelled.
- `NSMakeRange(0, string.count)` counts Characters, but NSString ranges count UTF-16 units; this mismatch is not modelled, and the whole line is searched.
- Case-insensitive matching folds the ASCII letters only, which is every letter the patterns contain. Unicode case folding of the line itself is not modelled.
- Matching.Matches: the loop in `matches` that copies each capture range into a string is folded into the function's result. The check `numberOfRanges == numberOfCaptures + 1` always holds for the three fixed patterns, so it is not modelled as a separate failure.
- Matching.NameAndPidComplete: it states only the pid capture. When `[` directly follows the whitespace, the name capture is the last whitespace character, because the regex backtracks; `CaptureNameAndPidName` states that case, but the completeness lemma does not determine the name in general.
- Concurrency is not modelled:
  - The background queue, the one-second delay and the `DispatchQueue.main.sync` hand-offs in `reload` are left out. Each delivery is one atomic step, and the deliveries happen in order, which is what the synchronous hand-off gives.
  - `addReport` publishes the new index through `DispatchQueue.main.async`. A second `addReport` that runs before that block would read the stale index. The model sets the index synchronously.
- `groupController` (the array controller bound to `groups`) is assumed to be present, so `remove(contentsOf:)` and `addObject` act on `groups` directly.
- String equality: Swift compares `String` and `Substring` values, and hashes them into a `Set`, up to Unicode canonical equivalence. The model compares them character by character. So two process names that differ only in normalisation form one group in the program (the lookup in `reload`) but two in the model. Likewise, two words that differ only in normalisation are one index word in the program (`Set(words)` in `addReport`) but two in the model.
- Controller.ClickedOrSelected: items are compared by value, while `selected.contains` compares report objects by `NSObject` equality, which is identity.
- `description`, Quick Look (`previewItemURL`, `previewItemTitle`) and the pasteboard methods are presentation, not core logic.
- The rest of `MainWindowController` is user interface: open, share, save, copy, theming, the text view and the table delegate.

## Findings

| source | as written | input that shows it | evidently intended | confidence | as-written member | corrected member |
|---|---|---|---|---|---|---|
| Diagnostics/Classes/DiagnosticReport.swift:381-386 | When `dateFormatter1` fails, the fallback calls `dateFormatter1` again, and `dateFormatter2` is never used. | A line `Date/Time: 2023-05-01 10:15:30 +0000` (no milliseconds): the first format fails, so the whole report is rejected. | Fall back to `dateFormatter2` (`yyyy-MM-dd HH:mm:ss ZZZ`). | not executed | ReportProperties.SourceRejectsSecondFormatDate | ReportProperties.IntendedDateFallback |
| Diagnostics/Classes/DiagnosticReport.swift:286 | `String(format: "%u", self.pid)` prints a 32-bit unsigned value of a 64-bit `UInt`, so only the low 32 bits are shown. The same happens to `uid` at line 367. | `Process: x [4294967296]` gives `pid` 4294967296 but `pidString` "0". | Print the whole value (`%lu`, or `String(self.pid)`). | not executed | ReportProperties.SourceRenderingTruncates | ReportProperties.IntendedRenderingRoundTrip |
