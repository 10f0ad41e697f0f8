# diffparser in Dafny

A model of `parse(text, { findRenames })` from the JavaScript package
diffparser. It turns the text of a unified diff into a list of file records.
Each record has its old and new path (`from`, `to`), its `new`, `deleted` and
`renamed` flags, and its hunks (chunks). Each chunk holds its header line
verbatim, the four numbers of that header, and its changes. A change keeps its
line with the marker, its type (`add`, `del`, `normal`) and its 1-based
`position` in the chunk.

The project has these modules:

- `Text` splits the input into lines and reads whitespace-delimited tokens
  and decimal digit runs.
- `LineClassifier` tags a line by its fixed leading marker.
- `Headers` extracts paths. It covers the `diff --git a/X b/Y` line, the
  `--- `/`+++ ` lines of git, GNU diff and hg, and svn's `Index:` line.
- `HunkHeader` holds the `@@ -a[,b] +c[,d] @@` grammar. A count that is left
  out means 1.
- `Scanner` is the single scan over the lines. `Step` and `Run` are its
  specification. The method `ScanLines` runs the loop and calls `Feed` once
  per line. The current record is the last element of the list and the
  current chunk is that record's last chunk.
- `ScanProperties` proves what every scan guarantees:
  - positions, types and chunk numbers;
  - hunks in input order;
  - records that stay closed;
  - file sections that scan independently.
- `Renames` is the opt-in rename pass. It has a specification function and a
  worklist method proved equal to it.
- `DiffParser` is the entry point, with its early exit for absent or blank
  text.
- `Scenarios` and `Behaviour` prove, for every input of the shape the test
  suite uses, what the suite expects of it. Those shapes are:
  - git diffs for ordinary, new, deleted and empty files;
  - single-line files;
  - GNU and hg diffs with hunks of any length;
  - svn blocks;
  - several files in one diff;
  - a rename.

The model follows the behaviour `test/index.js` asserts. Where a case is
not asserted there, the choice the model makes is listed under "Left out".

## Model

| member | source | states |
|---|---|---|
| DiffParser.Parse | test/index.js:6-16 | Parsing gives the scan of the text's lines, passed through the rename pass when `findRenames` is set. It gives no record for absent, empty or whitespace-only text. |
| DiffParser.BlankScansToNothing | test/index.js:14-16 | Scanning a whitespace-only text would also give no record, so the early exit agrees with the scan. |
| DiffParser.ParseLines | test/index.js:19-28 | Parsing the text joined from newline-free lines is scanning exactly those lines. |
| Text.SplitLines | test/index.js:19-27 | The text is cut at every newline. No piece holds a newline, and joining the pieces gives the text back. |
| Text.SplitJoin | test/index.js:19-27 | Splitting undoes joining. |
| LineClassifier.Classify | test/index.js:20-26 | A change tag is given only to a line that starts with its marker and is not a header. A line is unrecognised exactly when it is no header and does not start with `+`, `-` or a space. Only a leading space makes a context line. |
| LineClassifier.ClassifyByMarker | test/index.js:20-26 | Each header tag is given exactly when the line starts with its marker: `diff --git `, `diff -r `, `Index: `, `new file mode`, `deleted file mode`, `index `, `--- `, `+++ ` or `@@`. A change tag is given exactly when the line starts with `+`, `-` or a space and is not a `+++ `/`--- ` header. |
| LineClassifier.ContentLine | test/index.js:25-26 | A line starting with `-` or `+` that is not a `--- `/`+++ ` header is a deletion or an addition. |
| LineClassifier.BlankLine | test/index.js:14-16 | A whitespace-only line is never a header. |
| Headers.MarkerPathOf | test/index.js:224-225 | The path on a `---`/`+++` line is the path without its `a/`/`b/` prefix. It ends at the first whitespace, so the tab and date after it are dropped. |
| Headers.DevNullPath | test/index.js:50-51 | The `/dev/null` sentinel is kept as the path. |
| Headers.GitPathsOf | test/index.js:20 | `diff --git a/X b/Y` gives X and Y without their prefixes. |
| HunkHeader.ParseFormat | test/index.js:204-218 | Reading back a hunk header written in decimal, in either short or long form and with any trailing text, gives its four numbers. |
| HunkHeader.ShortOldForm | test/index.js:126 | `@@ -1 +0,0 @@` reads as old start 1, count 1, new start 0, count 0. |
| HunkHeader.ShortNewForm | test/index.js:131 | `@@ -0,0 +1 @@` reads as old start 0, count 0, new start 1, count 1. |
| HunkHeader.GnuFirstHunk | test/index.js:207-212 | `@@ -1,7 +1,6 @@` reads as 1, 7, 1, 6. |
| HunkHeader.GnuSecondHunk | test/index.js:213-218 | `@@ -9,3 +8,6 @@` reads as 9, 3, 8, 6. |
| Scanner.Fill | test/index.js:47-51 | Header lines only ever turn flags on. The new flag comes on only together with the `/dev/null` old path, and the deleted flag only with the `/dev/null` new path. The old path changes only on `new file mode` or `---`, and the new path only on `deleted file mode` or `+++`. |
| Scanner.FillByTag | test/index.js:47-51 | `new file mode` sets the new flag and the `/dev/null` old path and keeps everything else. `deleted file mode` sets the deleted flag and the `/dev/null` new path and keeps everything else. `---` sets the old path from the line and `+++` the new one; each keeps the other path, and the new or deleted flag comes on when its path is `/dev/null`. Any other line leaves the record unchanged. |
| Scanner.FillCurrent | test/index.js:47-51 | A filling header line updates the current record in place, after opening a new one when there is none or the current one has hunks. |
| Scanner.Feed | test/index.js:18-43 | One line changes the list of records and the three counters exactly as the scan's step does. |
| Scanner.ScanLines | test/index.js:18-43 | The loop over the lines gives the records of the scan. |
| ScanProperties.PositionsRunFromOne | test/index.js:65-68 | In every chunk, the k-th change has position k + 1, whatever the change types. |
| ScanProperties.TypeFromMarker | test/index.js:39-41 | Every change's content is non-empty and keeps its marker. The type is `del`, `add` or `normal` exactly when the first character is `-`, `+` or a space. |
| ScanProperties.ChunkNumbersFromHeader | test/index.js:204-218 | Every chunk's four numbers are what its own verbatim header line reads as. |
| ScanProperties.LineNumbers | test/index.js:180-190 | Old-side line numbers count up from `oldStart` over deletions and context lines. New-side numbers count up from `newStart` over additions and context lines. |
| ScanProperties.HunksInInputOrder | test/index.js:204-206 | The chunks of all records, in order, are the well-formed `@@` lines that follow the first header line, in input order. There is a record exactly when some line opens one. |
| ScanProperties.ChangesInInputOrder | test/index.js:24-26 | The changes of all records, in order, are exactly the change lines that come while a chunk is open, in input order. A chunk is open after a well-formed `@@` line that follows a record-opening line, until the next record-opening line. At the end, a chunk is open exactly when the last record has chunks. |
| ScanProperties.StepRecords | test/index.js:137-155 | A `diff`/`Index:` line appends exactly one record. Other header lines append one only when there is no record yet or the current one has hunks. No other line appends one, and no line changes a record before the current one. |
| ScanProperties.ClosedRecordsStay | test/index.js:155-157 | Scanning more lines never changes a record once a later one exists. |
| ScanProperties.SectionsIndependent | test/index.js:251-255 | A section starting with `diff --git`, `diff -r` or `Index:` adds exactly its own records after those of the text before it. |
| ScanProperties.RunOk | test/index.js:37-42 | Every scan state is well formed. Chunk numbers come from their headers, positions are consecutive, types match markers and no record is flagged renamed. The counters continue the current chunk. |
| Renames.DetectRenames | test/index.js:306-331 | The worklist loop gives exactly the rename pass's result. |
| Renames.Merge | test/index.js:324-328 | A matched pair becomes one renamed record, from the deleted record's old path to the new record's new path, with no chunks and no other flag. |
| Renames.NewThenDeleted | test/index.js:306-331 | A new record followed by a deleted one whose removed lines equal its added lines becomes exactly one renamed record, from the deleted path to the new path. |
| Renames.NeverLonger | test/index.js:323-328 | The rename pass never adds records. |
| Renames.ResultRecords | test/index.js:323-328 | Every output record is an input record, or the merge of a deleted and a new input record with equal payloads. A merged record is renamed, has no chunks, and is neither new nor deleted. |
| Renames.NoPairsLeft | test/index.js:323-328 | No two output records form a deleted/new pair with equal payloads. |
| Renames.PlainRecordsKept | test/index.js:323-328 | Records that are neither new, deleted nor renamed come through unchanged and in order. |
| Renames.NoPairsNoChange | test/index.js:323-328 | With no deleted/new pair of equal payloads, the pass returns its input. |
| Scenarios.GitLineOf | test/index.js:20 | `diff --git a/P b/P` is a file start and opens a record with P on both sides. |
| Scenarios.EmptyFirst | test/index.js:19 | The empty first line of the diff text changes nothing. |
| Scenarios.PlainGitHeaderScan | test/index.js:20-23 | An ordinary git header leaves one record with both paths and no hunk. |
| Scenarios.NewGitHeaderScan | test/index.js:47-51 | A `new file mode` header leaves one new record from `/dev/null` to the path. |
| Scenarios.DeletedGitHeaderScan | test/index.js:73-77 | A `deleted file mode` header leaves one deleted record from the path to `/dev/null`, whether its old side is spelled `a/` or `b/`. |
| Scenarios.NewModeStart | test/index.js:279-281 | With no `---`/`+++` pair, `new file mode` gives the path from the `diff --git` line and `/dev/null` as the old path. |
| Scenarios.DeletedModeStart | test/index.js:294-296 | With no `---`/`+++` pair, `deleted file mode` gives the path from the `diff --git` line and `/dev/null` as the new path. |
| Scenarios.GnuHeaderScan | test/index.js:178-179 | A GNU header's paths end at the first whitespace. |
| Scenarios.HgHeaderScan | test/index.js:223-225 | An hg header's paths lose their tab-separated dates and their `a/`/`b/` prefixes. |
| Scenarios.SvnHeaderScan | test/index.js:245-248 | An svn block gives one record with its `Index:` path on both sides. |
| Scenarios.ScanHunk | test/index.js:204-240 | A well-formed `@@` line followed by any change, context and unrecognised lines adds one chunk to the current record. The chunk holds the verbatim header and its numbers, plus one change per change line, in order, at positions 1, 2, ..., typed by the line's marker. |
| Scenarios.OneRecordTwoHunks | test/index.js:204-218 | Two such hunks after a header that left one record give that record exactly those two chunks. |
| Scenarios.RunTwoLineHunk | test/index.js:24-26 | A hunk header and two change lines after a header add one chunk with the verbatim header, its numbers, and the changes at positions 1 and 2. |
| Behaviour.SimpleGitDiff | test/index.js:18-43 | A simple git diff gives one record with both paths stripped, one chunk with the verbatim header, and its changes at positions 1 and 2. |
| Behaviour.GitNewFile | test/index.js:45-69 | A new file gives a new record from `/dev/null` with its additions at positions 1 and 2. |
| Behaviour.GitDeletedFile | test/index.js:71-94 | A deleted file gives a deleted record to `/dev/null` with its deletions at positions 1 and 2. |
| Behaviour.GitNewEmptyFile | test/index.js:277-290 | A new empty file gives one record from `/dev/null` to the path named on the `diff --git` line. |
| Behaviour.GitDeletedEmptyFile | test/index.js:292-304 | A deleted empty file gives one record from the path named on the `diff --git` line to `/dev/null`. |
| Behaviour.SingleLineFiles | test/index.js:96-135 | Deleting a one-line file, with its old path written with `b/`, and adding a one-line file give a deleted and a new record. Each has its paths and flags and one chunk with the verbatim header, holding its one line at position 1 with its type. |
| Behaviour.GnuPaths | test/index.js:176-219 | A GNU diff with two hunks gives one record from the first path to the second, each ending at whitespace. The record has two chunks, each with its verbatim header, its numbers and its changes. |
| Behaviour.HgPaths | test/index.js:221-240 | An hg diff gives one record with dates and prefixes dropped, and one chunk with the verbatim header and its changes. |
| Behaviour.SvnBlockAppends | test/index.js:243-273 | Each `Index:` block appends one record with its path on both sides, holding the block's chunk, after the earlier records. |
| Behaviour.SvnTwoBlocks | test/index.js:243-275 | Two `Index:` blocks give two records in order. Each has its path on both sides and one chunk with its verbatim header and its changes. |
| Behaviour.MultipleFiles | test/index.js:137-173 | Two git sections give two records in input order, each with its own paths and its own chunk, and positions restart at 1. |
| Behaviour.DetectsRename | test/index.js:306-331 | Scanning a new file and then a deleted file with the same lines gives a new and a deleted record. The rename pass turns them into the single renamed record. |
| Behaviour.RenameParsed | test/index.js:306-331 | Through `parse`, that diff gives exactly one renamed record, from the deleted path to the new one, with `findRenames` set. It gives two records without the option. |

## Left out

- The test runner setup and its imports (`test/index.js:1-3`) are not modelled. Each test's expectations are stated as lemmas over all inputs of the test's shape.
- The parser's regular expressions are not modelled. Line tags come from fixed prefixes, paths from whitespace-delimited tokens, and hunk numbers from decimal digit runs.
- The `index` line's hashes and mode and the `diff -r` revision ids are recognised but not interpreted or stored. The `index` field of a record is not modelled.
- Binary-file markers, the `binary` flag and `\ No newline at end of file` are not modelled. Such lines fall through as unrecognised and are skipped.
- A completely blank line inside a hunk (the hg sample, `test/index.js:227`) is skipped, not recorded as an empty context line. The tests assert nothing about it.
- Whitespace means the ASCII whitespace characters only. Unicode spaces are not modelled.
- HunkHeader.Parse: a line starting with `@@` that does not follow the hunk grammar is skipped, not a fatal error. No test feeds one.
- Headers.MarkerPath: `---`/`+++` paths lose a leading `a/` or `b/` in every dialect (`test/index.js:224-225`), not only after `diff --git`. A path whose first directory really is `a` or `b` loses it too.
- Scanner.Fill: a `---`/`+++` path of `/dev/null` also sets the new/deleted flag. The tests assert the flags only together with a mode line (`test/index.js:47-51`, `test/index.js:73-77`).
- Scanner.GitRecord: a `diff --git` line that does not carry two paths is not a fatal error. It opens a record with no paths, which later `---`/`+++` lines may fill. No test feeds one.
- Scanner.Step: a `diff -r` line opens a record with no paths, which the `---`/`+++` lines after it fill (`test/index.js:222-225`). The revision ids on the line are not read.
- Renames.Merge: the renamed record's `new` and `deleted` flags are false and its chunk list is empty. The test (`test/index.js:326-330`) expects those keys to be absent from the object. A record here always has every field, so false and the empty list stand for absent keys.
- Scanner.ScanLines: the current record and chunk are the last elements of value sequences, so the aliasing of the JavaScript objects is not modelled. The records returned are the same.
- ScanProperties.LineNumbers: `oldLine`/`newLine` follow the usual unified-diff counting. The tests do not assert them.
- Renames.FindRenames: records are paired left to right. The first later record that forms a pair with the current one is merged into the current one's place. The tests fix only the single-pair case.
