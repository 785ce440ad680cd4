# TextTools core in Dafny

TextTools is a desktop text-cleaning utility. Its core has two services and
two records. This project models them and proves what they promise.

- `TextProcessingService` provides three line-oriented whitespace transforms:
  - `trim_whitespace` drops blank lines at both ends and trailing whitespace
    on every line.
  - `clean_whitespace` collapses runs of two or more spaces into one.
  - `remove_tabs` strips the leading spaces and tabs of every line.
  - `apply_options` composes them under a `CleaningOptions` flag set, in the
    fixed order trim, clean, remove tabs.
- `FileService` provides three operations:
  - `_detect_encoding` picks an encoding from a detector's guess, with a
    0.7 confidence threshold, "ascii" reported as "utf-8", and a fallback to
    "utf-8".
  - `save_file` saves atomically. It creates a temp file in the target's
    directory, writes the content into it and replaces the target with it.
    If anything fails, it removes the temp file and re-raises.
  - `open_file` reads a file into an unmodified `TextDocument`.
- The records are `TextDocument` (with its defaults and `validate`) and
  `CleaningOptions` (three independent flags, all off by default).

Layout, one module per file:

- `wrappers.dfy` holds `Option`, `Result` and `Outcome`.
- `text_lines.dfy` holds the Python string built-ins the transforms are made
  of:
  - `splitlines` on '\n';
  - `"\n".join`;
  - `rstrip` over the `isspace` set;
  - `lstrip(" \t")`;
  - `re.sub(r" {2,}", " ", line)`, with an independent reference
    definition ("delete a space that follows a space") proved equal to it.
- `text_processing_service.dfy` holds the four transforms and their
  properties.
- `paths.dfy` holds `os.path.join`, `abspath` and `dirname`.
- `file_system.dfy` holds a `FileSystem` class. Its `files` map goes from an
  absolute path to text. Its methods are the primitives `save_file` uses:
  `mkstemp`, write, `os.replace` and `os.unlink`. Each failure is a
  parameter.
- `file_service.dfy` holds the encoding decision, `open_file` and
  `save_file`. `save_file` is a module-level method `SaveFile` that takes the
  `FileSystem` object `fs` and changes its `files`. It is proved equal to a
  function `Save` that the lemmas reason about.
- `text_document.dfy` and `cleaning_options.dfy` hold the records.

What the code does, as modelled:

- `apply_options` applies trim, then clean, then remove tabs
  (src/services/text_processing_service.py:44-53).
- `clean_whitespace` does not turn tabs into spaces: its pattern `" {2,}"`
  matches only ' ' (src/services/text_processing_service.py:34).
- `trim_whitespace` keeps the leading whitespace of a line, because it only
  calls `rstrip` on each line (src/services/text_processing_service.py:29).
  An indented line between blank lines trims to the indented line
  (`TrimSurroundedLine`).
- `save_file` never sets the document's `modified` flag
  (src/services/file_service.py:49-75).
- `clean_whitespace` loses a final empty line that `splitlines` reports, so
  `l + "\n\n"` cleans to `l + "\n"` and that cleans to `l`
  (`CleanDropsFinalEmptyLine`). Cleaning is idempotent whenever the last split
  line of the input is not empty (`CleanIdempotent`).
- `remove_tabs` is not idempotent when the text has at least two split lines
  and the last consists of spaces and tabs only. For example `"a\n\t"` gives
  `"a\n"`, which gives `"a"` (`RemoveTabsBlankLastLine`,
  `RemoveTabsDropsFinalEmptyLine`). When the last split line keeps a character
  after stripping, removing tabs is idempotent (`RemoveTabsIdempotent`).
- `apply_options` is idempotent on every text for every flag set that includes
  trimming: trim alone (`TrimIdempotent`), trim with clean
  (`TrimCleanIdempotent`), trim with remove tabs (`TrimRemoveTabsIdempotent`)
  and all three (`AllOptionsIdempotent`). Trimming leaves no final empty or
  blank line, and the other two transforms keep it so. With no flag set,
  `apply_options` is the identity (`NoOptionsIsIdentity`). Every other flag
  set without trimming can fail, because each of the two transforms drops one
  final empty line. Clean alone and remove tabs alone fail on `l + "\n\n"`
  (`CleanDropsFinalEmptyLine`, `RemoveTabsDropsFinalEmptyLine`). Both
  together reach a fixed point on `l + "\n\n"` but fail on `l + "\n\n\n"`
  (`CleanRemoveTabsBreaks`).
- When `save_file` fails, its handler tries to remove the temp file and
  swallows an error in doing so (src/services/file_service.py:70-75). A failed
  save can therefore leave its temp file behind. Only the temp file can differ
  from the file system before the save.

## Model

| member | source | states |
|---|---|---|
| TextLines.Lines | src/services/text_processing_service.py:24 | `splitlines` gives no lines exactly for the empty text |
| TextLines.LinesHaveNoBreak | src/services/text_processing_service.py:24 | no line that `splitlines` returns holds a line break |
| TextLines.JoinOfLines | src/services/text_processing_service.py:24-29 | joining the split lines with "\n" gives back the text minus one final '\n' |
| TextLines.LinesOfJoin | src/services/text_processing_service.py:29 | splitting break-free lines joined by "\n" gives them back, except a final empty line |
| TextLines.RStrip | src/services/text_processing_service.py:29 | `rstrip` keeps a prefix that is empty or ends in non-whitespace, and removes only whitespace |
| TextLines.RStripAppend | src/services/text_processing_service.py:29 | `rstrip` removes exactly a trailing whitespace run and nothing before it |
| TextLines.RStripEmptyIffBlank | src/services/text_processing_service.py:25-29 | `rstrip` leaves nothing exactly when the line is blank (`not line.strip()`) |
| TextLines.BlankIffAllWs | src/services/text_processing_service.py:25 | a line is blank exactly when every character is whitespace |
| TextLines.AllLinesBlankIffBlank | src/services/text_processing_service.py:24-28 | every split line is blank exactly when the whole text is whitespace only |
| TextLines.LStripSpaceTab | src/services/text_processing_service.py:39 | `lstrip(" \t")` keeps a suffix that does not start with a space or tab, after a prefix of spaces and tabs only |
| TextLines.LStripAppend | src/services/text_processing_service.py:39 | stripping removes exactly a leading space/tab run and nothing after it |
| TextLines.LStripEachKept | src/services/text_processing_service.py:39 | each line kept after stripping and re-splitting is the strip of the input line at its position |
| TextLines.LStripEachFixed | src/services/text_processing_service.py:39 | lines that already start with neither a space nor a tab are left unchanged by stripping each |
| TextLines.CollapseSpaces | src/services/text_processing_service.py:34 | the regex substitution never lengthens a line, keeps its first and last characters, adds no new character and leaves no two adjacent spaces |
| TextLines.CollapseSpacesIsDropRepeatedSpaces | src/services/text_processing_service.py:34 | the regex scan equals the reference "delete every space that follows a space" |
| TextLines.DropRepeatedSpacesKeepsNonSpaces | src/services/text_processing_service.py:34 | collapsing keeps every character other than ' ', in order (so tabs survive) |
| TextLines.DropRepeatedSpacesFixpoint | src/services/text_processing_service.py:34 | a line without two adjacent spaces is left unchanged |
| TextLines.CollapseSpacesIdempotent | src/services/text_processing_service.py:34 | collapsing a line twice is collapsing it once |
| TextLines.CollapseEachIdempotent | src/services/text_processing_service.py:34 | collapsing every line twice is collapsing every line once |
| TextLines.CollapseEachFixed | src/services/text_processing_service.py:34 | lines without two adjacent spaces are left unchanged by collapsing each |
| TextLines.JoinNoDoubleSpace | src/services/text_processing_service.py:34 | joining lines with no double space by "\n" creates no double space |
| TextLines.DropRepeatedSpacesAppend | src/services/text_processing_service.py:34 | collapsing works piecewise across a boundary that is not between two spaces |
| TextLines.DropRepeatedSpacesOfRun | src/services/text_processing_service.py:34 | a run of spaces collapses to one space |
| TextLines.LStripKeepsNoDoubleSpace | src/services/text_processing_service.py:34-39 | stripping after cleaning keeps the line free of double spaces |
| TextLines.LStripKeepsLast | src/services/text_processing_service.py:29-39 | stripping keeps a line's non-whitespace last character |
| TextLines.CollapseStripLine | src/services/text_processing_service.py:29-39 | a break-free line not ending in whitespace, collapsed then stripped, has no double space, starts with neither space nor tab, ends in non-whitespace, and is non-empty if the line was |
| TextProcessingService.TrimWhitespace | src/services/text_processing_service.py:22-29 | the two pop loops and the right-strip compute exactly the kept lines, right-stripped and joined |
| TextProcessingService.KeptEnds | src/services/text_processing_service.py:25-28 | after both loops the first and last remaining lines are not blank, and none remains exactly when every line was blank |
| TextProcessingService.TrimmedLines | src/services/text_processing_service.py:24-29 | the output's lines are the input's lines from the first to the last non-blank one, right-stripped; they are settled |
| TextProcessingService.TrimmedNoTrailingWhitespace | src/services/text_processing_service.py:29 | no output line ends in whitespace |
| TextProcessingService.TrimmedEndsNotBlank | src/services/text_processing_service.py:25-28 | the output is empty, or its first and last lines hold a non-whitespace character |
| TextProcessingService.TrimmedEmptyIffBlank | src/services/text_processing_service.py:25-29 | the output is "" exactly when the input is empty or whitespace only |
| TextProcessingService.TrimmedKeepsInteriorLines | src/services/text_processing_service.py:25-29 | line `j` of the trimmed text is kept line `j` right-stripped, and a kept blank line survives as an empty line |
| TextProcessingService.KeptLineAt | src/services/text_processing_service.py:25-28 | the kept lines are exactly the lines from the first to the last non-blank one: their number is the width of that range, and line `k` of the range is kept at position `k - ContentStart` |
| TextProcessingService.SettledLinesRoundTrip | src/services/text_processing_service.py:29 | lines in the shape trimming leaves split back unchanged after joining |
| TextProcessingService.TrimmedOfSettled | src/services/text_processing_service.py:22-29 | text already in trimmed shape is a fixed point of trimming |
| TextProcessingService.TrimIdempotent | src/services/text_processing_service.py:22-29 | trimming twice is trimming once |
| TextProcessingService.TrimPaddedLines | src/services/text_processing_service.py:22-29 | two lines padded with trailing whitespace, then a blank line, trim to the bare lines |
| TextProcessingService.TrimSurroundedLine | src/services/text_processing_service.py:22-29 | one padded line between blank lines trims to that line, right-stripped, with its indentation kept |
| TextProcessingService.TrimScenario | tests/integration/test_live_scenarios.py:96-102 | `"hello   \nworld   \n\n"` trims to `"hello\nworld"` |
| TextProcessingService.CleanedLines | src/services/text_processing_service.py:33-34 | the output's lines are the input's lines, each collapsed; the line count is kept unless the input's last line is empty |
| TextProcessingService.CleanWhitespace | src/services/text_processing_service.py:31-34 | the cleaned text holds no two adjacent spaces |
| TextProcessingService.CleanedNoDoubleSpace | src/services/text_processing_service.py:34 | neither the output nor any of its lines holds two adjacent spaces |
| TextProcessingService.CleanIdempotent | src/services/text_processing_service.py:31-34 | cleaning twice is cleaning once when the input's last line is not empty |
| TextProcessingService.CleanDropsFinalEmptyLine | src/services/text_processing_service.py:33-34 | `l + "\n"` cleans to `l`, `l + "\n\n"` cleans to `l + "\n"`, and cleaning that again changes it |
| TextProcessingService.CleanSingleLine | src/services/text_processing_service.py:31-34 | on one line, cleaning is that line's collapse |
| TextProcessingService.RemoveTabs | src/services/text_processing_service.py:36-39 | re-splitting the output gives the input's lines, each stripped of leading spaces and tabs, less a final empty line |
| TextProcessingService.RemovedTabsShape | src/services/text_processing_service.py:38-39 | no output line starts with a space or tab; each is a suffix of the input line at its position after a space/tab run, so later tabs survive |
| TextProcessingService.RemoveTabsDropsFinalEmptyLine | src/services/text_processing_service.py:38-39 | `l + "\n"` loses its break, `l + "\n\n"` becomes `l + "\n"`, and removing tabs again changes it |
| TextProcessingService.RemoveTabsBlankLastLine | src/services/text_processing_service.py:36-39 | a last line of spaces and tabs only is stripped to an empty line that is then lost, so removing tabs again changes the text |
| TextProcessingService.RemoveTabsIdempotent | src/services/text_processing_service.py:36-39 | removing tabs twice is removing them once when the input's last line keeps a character after stripping |
| TextProcessingService.RemoveTabsSingleLine | src/services/text_processing_service.py:36-39 | on one line, removing tabs is that line's strip |
| TextProcessingService.ApplyOptions | src/services/text_processing_service.py:41-54 | the result is trim, then clean, then remove tabs, each only when its flag is set; with no flag set the text is unchanged |
| TextProcessingService.NoOptionsIsIdentity | src/services/text_processing_service.py:48-54 | the default options return the input unchanged |
| TextProcessingService.EachFlagGatesOneTransform | src/services/text_processing_service.py:48-53 | each flag alone applies exactly its own transform; all three apply remove_tabs ∘ clean ∘ trim |
| TextProcessingService.CleanedKeepsLineEnds | src/services/text_processing_service.py:44-51 | cleaning trimmed text keeps every line free of trailing whitespace |
| TextProcessingService.AllOptionsLineShape | src/services/text_processing_service.py:44-53 | with every flag set, no output line starts with a space or tab, ends in whitespace, or holds two adjacent spaces |
| TextProcessingService.AllOptionsLines | src/services/text_processing_service.py:44-53 | with every flag set, the output's lines are settled (no blank first or last line), split back from the output unchanged, and each is tidy |
| TextProcessingService.CleanOfTidy | src/services/text_processing_service.py:31-34 | text joined from settled, tidy lines (break-free, no double space, no leading space or tab, no trailing whitespace) is a fixed point of cleaning |
| TextProcessingService.RemoveTabsOfTidy | src/services/text_processing_service.py:36-39 | text joined from settled, tidy lines is a fixed point of removing tabs |
| TextProcessingService.AllOptionsOfTidy | src/services/text_processing_service.py:41-54 | settled, tidy text is a fixed point of `apply_options` with every flag set |
| TextProcessingService.AllOptionsIdempotent | src/services/text_processing_service.py:41-54 | applying every option twice is applying them once, on every text |
| TextProcessingService.CollapseEachSettled | src/services/text_processing_service.py:34 | collapsing spaces keeps lines in the shape trimming leaves |
| TextProcessingService.LStripEachTwice | src/services/text_processing_service.py:39 | stripping leading spaces and tabs from every line twice is stripping them once |
| TextProcessingService.LStripEachSettled | src/services/text_processing_service.py:39 | stripping leading spaces and tabs keeps lines in the shape trimming leaves |
| TextProcessingService.TrimCleanIdempotent | src/services/text_processing_service.py:41-54 | with trim and clean set, applying the options twice is applying them once, on every text |
| TextProcessingService.TrimRemoveTabsIdempotent | src/services/text_processing_service.py:41-54 | with trim and remove tabs set, applying the options twice is applying them once, on every text |
| TextProcessingService.CleanRemoveTabsBreaks | src/services/text_processing_service.py:41-54 | with clean and remove tabs set and trim not set, `l + "\n\n"` becomes `l` and stays there, while `l + "\n\n\n"` becomes `l + "\n"` and a second pass changes it again, so that flag set is not idempotent |
| TextProcessingService.CleanClosedThrice | src/services/text_processing_service.py:31-34 | cleaning a line followed by two empty lines drops only the final empty line |
| TextLines.LinesClosedThrice | src/services/text_processing_service.py:33 | `splitlines` on a line and two closed empty lines gives those three lines |
| TextProcessingService.CollapsePaddedPair | src/services/text_processing_service.py:34 | two space-free words separated by a run of spaces end up one space apart |
| TextProcessingService.AllOptionsOnPaddedPair | src/services/text_processing_service.py:44-53 | with every flag set, an indented, padded two-word line between blank lines becomes the two words one space apart |
| TextProcessingService.AllOptionsScenario | tests/unit/test_text_processing_service.py:102-108 | `"\n\t  hello    world  \n\n"` with every flag set gives `"hello world"` |
| CleaningOptionsModel.DefaultsAreOff | src/models/cleaning_options.py:21-23 | every flag not given is off, and all three can be set together |
| CleaningOptionsModel.FieldsAreIndependent | src/models/cleaning_options.py:21-23 | setting one flag leaves the other two as they were |
| TextDocumentModel.ValidateIgnoresContent | src/models/text_document.py:27-29 | `validate` depends on the path alone: a path with empty content is valid, content without a path is not |
| TextDocumentModel.Defaults | src/models/text_document.py:24-25 | a document built from a path and content is "utf-8" and unmodified |
| TextDocumentModel.FieldsAreStored | src/models/text_document.py:22-25 | explicitly supplied encoding and `modified` values are stored unchanged |
| Paths.JoinPath | src/services/file_service.py:64 | joining onto an absolute directory gives an absolute path that ends with the joined name |
| Paths.AbsPath | src/services/file_service.py:64 | a path resolved against an absolute working directory is absolute |
| Paths.LastSlash | src/services/file_service.py:64 | the index of the last '/' in the path, or -1 when there is none |
| Paths.RStripSlashes | src/services/file_service.py:64 | the longest prefix that does not end in '/', after which only slashes follow |
| Paths.DirName | src/services/file_service.py:64 | `dirname` is a prefix of the path up to its last '/'; it is empty exactly when the path has no '/'; it ends without '/' unless it is all slashes, and then it reaches the last '/'; only slashes lie between it and the last '/' |
| Paths.AbsoluteHasDirName | src/services/file_service.py:64 | an absolute path has a non-empty directory part, so the `or "."` branch is not taken |
| Paths.DirNameOfJoin | src/services/file_service.py:64-65 | a slash-free name joined onto a directory has that directory as its `dirname` |
| FileSystemModel.FirstFree | src/services/file_service.py:65 | `mkstemp` settles on the first candidate name that is not taken, or none |
| FileSystemModel.Replaced | src/services/file_service.py:69 | after `os.replace` the destination holds the source's content, the source is gone, and every other path is untouched |
| FileSystemModel.FileSystem.MakeTemp | src/services/file_service.py:65 | a temp file is created empty under the first free name, or nothing changes and the failure is reported |
| FileSystemModel.FileSystem.Write | src/services/file_service.py:67-68 | the temp file holds the content, or only a prefix of it when the write fails |
| FileSystemModel.FileSystem.Replace | src/services/file_service.py:69 | the replace happens entirely or not at all |
| FileSystemModel.FileSystem.Unlink | src/services/file_service.py:72 | the file is removed, or nothing changes on failure |
| FileService.DetectEncoding | src/services/file_service.py:78-96 | the chosen encoding is never empty, and it is either "utf-8" or the detector's own name |
| FileService.FallbackWhenUnsure | src/services/file_service.py:90-96 | with no detector, no name or a confidence below 0.7, the answer is "utf-8" |
| FileService.AsciiBecomesUtf8 | src/services/file_service.py:91-93 | a confident name gives "utf-8" exactly when it is "ascii" in any letter case or is "utf-8" itself |
| FileService.ConfidentNameVerbatim | src/services/file_service.py:93 | a confident name that is not "ascii" in some letter case is returned with its original case |
| FileService.AsciiLowerIsAscii | src/services/file_service.py:91 | `name.lower() == "ascii"` holds exactly when the name is "ascii" in some mix of upper- and lower-case letters |
| FileService.ThresholdIsInclusive | src/services/file_service.py:90 | for a name that is not "ascii" in some letter case, a confidence of exactly 0.7 is trusted and anything lower is not |
| FileService.DetectionExamples | src/services/file_service.py:78-96 | "ASCII" at 0.99 gives "utf-8", "Windows-1252" at 0.73 keeps its capitals, and 0.5 falls back |
| FileService.OpenFile | src/services/file_service.py:28-47 | success exactly when the path names an existing, readable file; a missing path raises FileNotFoundError, an unreadable one PermissionError; the document holds the path, the content and the detected encoding, and is not modified |
| FileService.SaveDir | src/services/file_service.py:64 | the directory handed to `mkstemp` is never empty: it is "." or a prefix of the target's absolute path |
| FileService.SaveFile | src/services/file_service.py:49-75 | validate, pick the directory, `mkstemp`, write, replace, and unlink on failure; the result and the new file system are those of `Save` |
| FileService.Save | src/services/file_service.py:60-75 | an empty path raises ValueError; a save that creates no temp file fails and changes nothing; a successful save leaves the content at the target |
| FileService.TryWriteAndReplace | src/services/file_service.py:67-75 | the `try` block and its handler on the file system give the result and the files of `WriteAndReplace` |
| FileService.WriteAndReplace | src/services/file_service.py:67-75 | success exactly when neither the write nor the replace fails; then the target holds the content and only the temp file and the target changed; on failure only the temp file changed, and it is gone unless the unlink failed |
| FileService.SaveRejectsEmptyPath | src/services/file_service.py:60-61 | an empty path raises ValueError and nothing is created or changed |
| FileService.SaveSucceedsIff | src/services/file_service.py:60-75 | a save succeeds exactly when the path is non-empty, a temp file is created, and neither the write nor the replace fails |
| FileService.SaveTemp | src/services/file_service.py:64-65 | a save that got as far as the temp file used the first free name in the target's directory, and that file was new |
| FileService.SaveSuccess | src/services/file_service.py:64-69 | after success the target holds exactly the content, every other file is as before, and no temp file is left |
| FileService.SaveFailure | src/services/file_service.py:70-75 | after failure no file but the temp file differs, so the target keeps its old content; when the cleanup works, nothing differs |
| FileService.SaveRaisesFirstError | src/services/file_service.py:65-75 | the error raised comes from the step that failed |
| FileService.TempBesideTarget | src/services/file_service.py:64-65 | the temp file lies in the target's own directory |
| FileService.SaveThenOpen | src/services/file_service.py:28-75 | opening the path after a successful save gives back the saved content, unmodified |

## Left out

- TextLines.Lines: `str.splitlines` also breaks lines at "\r", "\r\n", "\v", "\f", "\x1c"–"\x1e", "\x85", "\u2028" and "\u2029". The model breaks only at '\n', so a text using other breaks splits differently.
- TextLines.IsWs: this is the fixed `str.isspace` set of the Unicode version CPython uses. A change to Unicode's whitespace table is not tracked.
- TextProcessingService.TrimWhitespace: the list is not popped in place. The two loops move the bounds `lo` and `hi` of the same line sequence, which removes the same lines.
- Logging is not modelled. It has no effect on results.
- Byte codecs are not modelled. A file holds text, and decoding with `errors="replace"` and encoding through the descriptor are the identity. A decode error that replaces characters and a `UnicodeEncodeError` during the write are outside the model.
- FileService.DetectEncoding: `chardet` is an abstract detector passed as a parameter (`Option<string -> Detection>`). `None` stands for the `ImportError` path. Lower-casing is modelled on ASCII letters only, which decides `== "ascii"` exactly.
- FileService.OpenFile: a read permission failure is the flag `readDenied`. Other OS errors, such as reading a directory, are not modelled. The encoding stored is the detector's choice on the text rather than on raw bytes.
- FileSystemModel.FileSystem.MakeTemp: the random names `mkstemp` tries are a parameter, in order. A directory where creation is refused is the flag `denied`, and a missing directory is treated the same way. The file mode 0600 that `mkstemp` sets, which `os.replace` carries over to the target, is not modelled.
- FileSystemModel.FileSystem.Write: a failing write leaves a prefix of the content and raises OSError. Whether the error is an OSError or an encoding error is not distinguished.
- FileSystemModel.FileSystem.Unlink: an unlink failure is the flag `fails`. The handler swallows it, so its error type is immaterial.
- Paths.AbsPath: the `normpath` step that folds "." and ".." is not modelled. Paths are compared as written, so two spellings of one file are two keys.
- Directories, symbolic links and other processes touching the same files are not modelled.
- FileService.TempBesideTarget: assumes an absolute working directory and candidate names without '/'. `os.getcwd()` and `mkstemp` guarantee both.
