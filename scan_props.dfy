/** What the scan guarantees about every result: running positions, change
    types taken from the marker, line numbers, hunk numerics agreeing with
    the verbatim header, and the order of hunks and records. */
module ScanProperties {
  import opened Wrappers
  import opened Text
  import opened DiffTypes
  import opened LineClassifier
  import opened Scanner
  import Headers
  import HunkHeader

  // ---------------------------------------------------------------------------
  // Well-formed records

  /** Changes that have an old-side line: deletions and context lines. */
  function OldCount(cs: seq<Change>): nat
    decreases |cs|
  {
    if cs == [] then 0 else OldCount(cs[..|cs| - 1]) + (if Last(cs).kind != Add then 1 else 0)
  }

  /** Changes that have a new-side line: additions and context lines. */
  function NewCount(cs: seq<Change>): nat
    decreases |cs|
  {
    if cs == [] then 0 else NewCount(cs[..|cs| - 1]) + (if Last(cs).kind != Del then 1 else 0)
  }

  /** `c` may follow the changes `before` in a chunk whose ranges start at
      `oldStart` and `newStart`: it sits at the next position, keeps its
      marker as the first character of its content, and carries the old
      and new line numbers the changes before it reached. */
  predicate Fits(oldStart: nat, newStart: nat, before: seq<Change>, c: Change) {
    && c.position == |before| + 1
    && |c.content| > 0 && c.content[0] == Marker(c.kind)
    && c.oldLine == (if c.kind != Add then Some(oldStart + OldCount(before)) else None)
    && c.newLine == (if c.kind != Del then Some(newStart + NewCount(before)) else None)
  }

  /** Every change fits the changes before it. */
  predicate ChangesOk(oldStart: nat, newStart: nat, cs: seq<Change>)
    decreases |cs|
  {
    cs == [] ||
      (ChangesOk(oldStart, newStart, cs[..|cs| - 1]) && Fits(oldStart, newStart, cs[..|cs| - 1], Last(cs)))
  }

  /** A chunk's numbers are those of its own verbatim header line, and its
      changes fit one after the other. */
  predicate ChunkOk(ch: Chunk) {
    && HunkHeader.Parse(ch.content) == Some(HunkHeader.HunkHead(ch.oldStart, ch.oldLines, ch.newStart, ch.newLines))
    && ChangesOk(ch.oldStart, ch.newStart, ch.changes)
  }

  predicate ChunksOk(chunks: seq<Chunk>)
    decreases |chunks|
  {
    chunks == [] || (ChunksOk(chunks[..|chunks| - 1]) && ChunkOk(Last(chunks)))
  }

  predicate FileOk(f: File) {
    !f.renamed && ChunksOk(f.chunks)
  }

  predicate AllOk(files: seq<File>)
    decreases |files|
  {
    files == [] || (AllOk(files[..|files| - 1]) && FileOk(Last(files)))
  }

  /** The counters continue the current chunk. */
  predicate CountersOk(s: ScanState) {
    s.files != [] && Last(s.files).chunks != [] ==>
      var ch := Last(Last(s.files).chunks);
      && s.position == |ch.changes|
      && s.oldLine == ch.oldStart + OldCount(ch.changes)
      && s.newLine == ch.newStart + NewCount(ch.changes)
  }

  predicate StateOk(s: ScanState) {
    AllOk(s.files) && CountersOk(s)
  }

  /** The k-th change of a well-formed sequence fits the ones before it. */
  lemma {:induction false} ChangesOkAt(oldStart: nat, newStart: nat, cs: seq<Change>, k: nat)
    requires ChangesOk(oldStart, newStart, cs) && k < |cs|
    ensures Fits(oldStart, newStart, cs[..k], cs[k])
    decreases |cs|
  {
    var init := cs[..|cs| - 1];
    if k < |init| {
      ChangesOkAt(oldStart, newStart, init, k);
      assert init[..k] == cs[..k];
      assert init[k] == cs[k];
    } else {
      assert init == cs[..k];
      assert cs[k] == Last(cs);
    }
  }

  lemma {:induction false} ChunksOkAt(chunks: seq<Chunk>, j: nat)
    requires ChunksOk(chunks) && j < |chunks|
    ensures ChunkOk(chunks[j])
    decreases |chunks|
  {
    var init := chunks[..|chunks| - 1];
    if j < |init| {
      ChunksOkAt(init, j);
      SameChunkOk(init[j], chunks[j]);
    } else {
      SameChunkOk(Last(chunks), chunks[j]);
    }
  }

  lemma SameChunkOk(a: Chunk, b: Chunk)
    requires ChunkOk(a) && a == b
    ensures ChunkOk(b)
  {
  }

  lemma {:induction false} AllOkAt(files: seq<File>, i: nat)
    requires AllOk(files) && i < |files|
    ensures FileOk(files[i])
    decreases |files|
  {
    var init := files[..|files| - 1];
    assert AllOk(init) && FileOk(Last(files));
    if i < |init| {
      AllOkAt(init, i);
      assert init[i] == files[i];
    } else {
      assert files[i] == Last(files);
    }
  }

  // ---------------------------------------------------------------------------
  // The scan keeps its records well formed

  lemma AppendFileOk(files: seq<File>, f: File)
    requires AllOk(files) && FileOk(f)
    ensures AllOk(files + [f])
  {
    assert (files + [f])[..|files|] == files;
  }

  /** Replacing the current record by a well-formed one keeps every record
      well formed. */
  lemma ReplaceLastOk(files: seq<File>, f: File)
    requires files != [] && AllOk(files) && FileOk(f)
    ensures AllOk(files[|files| - 1 := f])
  {
    assert files[|files| - 1 := f][..|files| - 1] == files[..|files| - 1];
  }

  lemma AppendChunkOk(f: File, ch: Chunk)
    requires FileOk(f) && ChunkOk(ch)
    ensures FileOk(f.(chunks := f.chunks + [ch]))
  {
    assert (f.chunks + [ch])[..|f.chunks|] == f.chunks;
  }

  /** Replacing the last chunk of a record by a well-formed one keeps it well
      formed. */
  lemma ReplaceLastChunkOk(f: File, ch: Chunk)
    requires FileOk(f) && f.chunks != [] && ChunkOk(ch)
    ensures FileOk(f.(chunks := f.chunks[|f.chunks| - 1 := ch]))
  {
    assert f.chunks[|f.chunks| - 1 := ch][..|f.chunks| - 1] == f.chunks[..|f.chunks| - 1];
  }

  /** Appending a change that fits keeps a chunk well formed. */
  lemma AppendChangeOk(ch: Chunk, c: Change)
    requires ChunkOk(ch) && Fits(ch.oldStart, ch.newStart, ch.changes, c)
    ensures ChunkOk(ch.(changes := ch.changes + [c]))
  {
    assert (ch.changes + [c])[..|ch.changes|] == ch.changes;
  }

  lemma OpenChunkOk(s: ScanState, line: string)
    requires StateOk(s)
    ensures StateOk(OpenChunk(s, line))
  {
    match HunkHeader.Parse(line)
    case None =>
    case Some(h) =>
      if s.files != [] {
        var f := Last(s.files);
        var ch := Chunk(line, h.oldStart, h.oldLines, h.newStart, h.newLines, []);
        var f' := f.(chunks := f.chunks + [ch]);
        AppendChunkOk(f, ch);
        ReplaceLastOk(s.files, f');
        var r := OpenChunk(s, line);
        assert r == ScanState(s.files[|s.files| - 1 := f'], 0, h.oldStart, h.newStart);
        assert Last(r.files) == f' && Last(f'.chunks) == ch;
      }
  }

  lemma AppendCounts(cs: seq<Change>, c: Change)
    ensures OldCount(cs + [c]) == OldCount(cs) + (if c.kind != Add then 1 else 0)
    ensures NewCount(cs + [c]) == NewCount(cs) + (if c.kind != Del then 1 else 0)
  {
    assert (cs + [c])[..|cs|] == cs;
  }

  /** The change a content line makes, as the counters describe it. */
  function NextChange(s: ScanState, line: string, t: ChangeType): Change {
    Change(line, t, s.position + 1,
           if t != Add then Some(s.oldLine) else None,
           if t != Del then Some(s.newLine) else None)
  }

  lemma RecordShape(s: ScanState, line: string, t: ChangeType)
    requires s.files != [] && Last(s.files).chunks != []
    ensures var f := Last(s.files);
      var ch := Last(f.chunks);
      var ch' := ch.(changes := ch.changes + [NextChange(s, line, t)]);
      Record(s, line, t) ==
        ScanState(s.files[|s.files| - 1 := f.(chunks := f.chunks[|f.chunks| - 1 := ch'])],
                  s.position + 1,
                  if t != Add then s.oldLine + 1 else s.oldLine,
                  if t != Del then s.newLine + 1 else s.newLine)
  {
  }

  /** Appending a change that fits to the current chunk keeps every record
      well formed. */
  lemma AppendLastOk(files: seq<File>, c: Change)
    requires AllOk(files) && files != [] && Last(files).chunks != []
    requires var ch := Last(Last(files).chunks); Fits(ch.oldStart, ch.newStart, ch.changes, c)
    ensures var f := Last(files);
      var ch := Last(f.chunks);
      AllOk(files[|files| - 1 := f.(chunks := f.chunks[|f.chunks| - 1 := ch.(changes := ch.changes + [c])])])
  {
    var f := Last(files);
    var ch := Last(f.chunks);
    var ch' := ch.(changes := ch.changes + [c]);
    AllOkAt(files, |files| - 1);
    ChunksOkAt(f.chunks, |f.chunks| - 1);
    AppendChangeOk(ch, c);
    ReplaceLastChunkOk(f, ch');
    ReplaceLastOk(files, f.(chunks := f.chunks[|f.chunks| - 1 := ch']));
  }

  /** The records after a content line: the change that fits is appended
      to the current chunk. */
  lemma RecordFilesOk(s: ScanState, line: string, t: ChangeType)
    requires StateOk(s)
    requires |line| > 0 && line[0] == Marker(t)
    requires s.files != [] && Last(s.files).chunks != []
    ensures AllOk(Record(s, line, t).files)
  {
    NextFits(s, line, t);
    AppendLastOk(s.files, NextChange(s, line, t));
    RecordShape(s, line, t);
  }

  /** The counters describe the change that may come next. */
  lemma NextFits(s: ScanState, line: string, t: ChangeType)
    requires CountersOk(s)
    requires |line| > 0 && line[0] == Marker(t)
    requires s.files != [] && Last(s.files).chunks != []
    ensures var ch := Last(Last(s.files).chunks);
      Fits(ch.oldStart, ch.newStart, ch.changes, NextChange(s, line, t))
  {
  }

  /** The counters after a content line continue the grown chunk. */
  lemma RecordCountersOk(s: ScanState, line: string, t: ChangeType)
    requires CountersOk(s)
    requires s.files != [] && Last(s.files).chunks != []
    ensures CountersOk(Record(s, line, t))
  {
    var f := Last(s.files);
    var ch := Last(f.chunks);
    var c := NextChange(s, line, t);
    var ch' := ch.(changes := ch.changes + [c]);
    var f' := f.(chunks := f.chunks[|f.chunks| - 1 := ch']);
    AppendCounts(ch.changes, c);
    RecordShape(s, line, t);
    assert Last(Record(s, line, t).files) == f';
    assert Last(f'.chunks) == ch';
  }

  lemma RecordOk(s: ScanState, line: string, t: ChangeType)
    requires StateOk(s)
    requires |line| > 0 && line[0] == Marker(t)
    ensures StateOk(Record(s, line, t))
  {
    if s.files != [] && Last(s.files).chunks != [] {
      RecordFilesOk(s, line, t);
      RecordCountersOk(s, line, t);
    }
  }

  /** Setting a flag or a path of the current record keeps it well formed. */
  lemma HeaderOk(s: ScanState, fs: seq<File>, f': File)
    requires StateOk(s)
    requires fs == Reopen(s.files)
    requires f'.chunks == Last(fs).chunks && !f'.renamed
    ensures StateOk(s.(files := fs[|fs| - 1 := f']))
  {
    if fs != s.files {
      AppendFileOk(s.files, EmptyFile);
    }
    ReplaceLastOk(fs, f');
  }

  /** A new record with no chunk keeps the state well formed. */
  lemma StartOk(s: ScanState, f: File)
    requires StateOk(s) && !f.renamed && f.chunks == []
    ensures StateOk(s.(files := s.files + [f]))
  {
    AppendFileOk(s.files, f);
  }

  lemma StartStepOk(s: ScanState, line: string)
    requires StateOk(s)
    requires Classify(line) in {GitStart, HgStart, SvnIndex}
    ensures StateOk(Step(s, line))
  {
    match Classify(line)
    case GitStart => StartOk(s, GitRecord(line));
    case HgStart => StartOk(s, EmptyFile);
    case SvnIndex => StartOk(s, SvnRecord(line));
  }

  lemma HeaderStepOk(s: ScanState, line: string)
    requires StateOk(s)
    requires Classify(line) in {NewFileMode, DeletedFileMode, IndexLine, OldPath, NewPath}
    ensures StateOk(Step(s, line))
  {
    var fs := Reopen(s.files);
    HeaderOk(s, fs, Fill(Last(fs), line));
  }

  lemma StepOk(s: ScanState, line: string)
    requires StateOk(s)
    ensures StateOk(Step(s, line))
  {
    match Classify(line)
    case GitStart | HgStart | SvnIndex => StartStepOk(s, line);
    case NewFileMode | DeletedFileMode | IndexLine | OldPath | NewPath => HeaderStepOk(s, line);
    case HunkStart => OpenChunkOk(s, line);
    case Content(t) => RecordOk(s, line, t);
    case Other =>
  }

  lemma {:induction false} RunOk(lines: seq<string>)
    ensures StateOk(Run(lines))
    decreases |lines|
  {
    if lines != [] {
      RunOk(lines[..|lines| - 1]);
      StepOk(Run(lines[..|lines| - 1]), Last(lines));
    }
  }

  /** The k-th change of the j-th chunk of the i-th record of a scan fits
      the changes before it. */
  lemma ChangeAt(lines: seq<string>, i: nat, j: nat, k: nat)
    requires i < |Run(lines).files|
    requires j < |Run(lines).files[i].chunks|
    requires k < |Run(lines).files[i].chunks[j].changes|
    ensures var ch := Run(lines).files[i].chunks[j];
      Fits(ch.oldStart, ch.newStart, ch.changes[..k], ch.changes[k])
  {
    var ch := Run(lines).files[i].chunks[j];
    ChunkAt(lines, i, j);
    ChangesOkAt(ch.oldStart, ch.newStart, ch.changes, k);
  }

  lemma ChunkAt(lines: seq<string>, i: nat, j: nat)
    requires i < |Run(lines).files|
    requires j < |Run(lines).files[i].chunks|
    ensures ChunkOk(Run(lines).files[i].chunks[j])
  {
    RunOk(lines);
    AllOkAt(Run(lines).files, i);
    ChunksOkAt(Run(lines).files[i].chunks, j);
  }

  /** Within every chunk the positions run 1, 2, ... with no gap, across
      deletions, additions and context lines alike. */
  lemma PositionsRunFromOne(lines: seq<string>, i: nat, j: nat, k: nat)
    requires i < |Run(lines).files|
    requires j < |Run(lines).files[i].chunks|
    requires k < |Run(lines).files[i].chunks[j].changes|
    ensures Run(lines).files[i].chunks[j].changes[k].position == k + 1
  {
    ChangeAt(lines, i, j, k);
  }

  /** A change's type is the one its first character names, and its content
      keeps that marker. */
  lemma TypeFromMarker(lines: seq<string>, i: nat, j: nat, k: nat)
    requires i < |Run(lines).files|
    requires j < |Run(lines).files[i].chunks|
    requires k < |Run(lines).files[i].chunks[j].changes|
    ensures var c := Run(lines).files[i].chunks[j].changes[k];
      |c.content| > 0 &&
      (c.content[0] == '-' <==> c.kind == Del) &&
      (c.content[0] == '+' <==> c.kind == Add) &&
      (c.content[0] == ' ' <==> c.kind == Normal)
  {
    ChangeAt(lines, i, j, k);
  }

  /** Every chunk's four numbers are read from its own header line, which
      the chunk keeps verbatim. */
  lemma ChunkNumbersFromHeader(lines: seq<string>, i: nat, j: nat)
    requires i < |Run(lines).files|
    requires j < |Run(lines).files[i].chunks|
    ensures var ch := Run(lines).files[i].chunks[j];
      HunkHeader.Parse(ch.content) == Some(HunkHeader.HunkHead(ch.oldStart, ch.oldLines, ch.newStart, ch.newLines))
  {
    ChunkAt(lines, i, j);
  }

  /** Old-side line numbers start at `oldStart` and go up by one with each
      deletion or context line; new-side numbers likewise from `newStart`. */
  lemma LineNumbers(lines: seq<string>, i: nat, j: nat, k: nat)
    requires i < |Run(lines).files|
    requires j < |Run(lines).files[i].chunks|
    requires k < |Run(lines).files[i].chunks[j].changes|
    ensures var ch := Run(lines).files[i].chunks[j];
      var c := ch.changes[k];
      (c.oldLine.Some? <==> c.kind != Add) && (c.newLine.Some? <==> c.kind != Del) &&
      (c.oldLine.Some? ==> c.oldLine.value == ch.oldStart + OldCount(ch.changes[..k])) &&
      (c.newLine.Some? ==> c.newLine.value == ch.newStart + NewCount(ch.changes[..k]))
  {
    ChangeAt(lines, i, j, k);
  }

  // ---------------------------------------------------------------------------
  // Order of hunks and records

  /** The header lines of the given chunks, in order. */
  function ChunkContents(chunks: seq<Chunk>): seq<string>
    decreases |chunks|
  {
    if chunks == [] then [] else ChunkContents(chunks[..|chunks| - 1]) + [Last(chunks).content]
  }

  /** The header lines of every chunk of every record, in order. */
  function AllHunkHeaders(files: seq<File>): seq<string>
    decreases |files|
  {
    if files == [] then [] else AllHunkHeaders(files[..|files| - 1]) + ChunkContents(Last(files).chunks)
  }

  /** Some line of the input opens a record. */
  predicate AnyOpens(lines: seq<string>) {
    exists i :: 0 <= i < |lines| && Opens(Classify(lines[i]))
  }

  /** The input lines that become chunks: every line that is a well-formed
      hunk header and comes after a line that opened a record. */
  function HunkLines(lines: seq<string>): seq<string>
    decreases |lines|
  {
    if lines == [] then []
    else
      var init := lines[..|lines| - 1];
      var line := Last(lines);
      HunkLines(init) +
        (if Classify(line) == HunkStart && HunkHeader.Parse(line).Some? && AnyOpens(init) then [line] else [])
  }

  lemma ReplaceLastChunkContents(chunks: seq<Chunk>, ch: Chunk)
    requires chunks != [] && ch.content == Last(chunks).content
    ensures ChunkContents(chunks[|chunks| - 1 := ch]) == ChunkContents(chunks)
  {
    assert chunks[|chunks| - 1 := ch][..|chunks| - 1] == chunks[..|chunks| - 1];
  }

  lemma AppendFileHeaders(files: seq<File>, f: File)
    ensures AllHunkHeaders(files + [f]) == AllHunkHeaders(files) + ChunkContents(f.chunks)
  {
    assert (files + [f])[..|files|] == files;
  }

  lemma ReplaceLastFileHeaders(files: seq<File>, f: File)
    requires files != []
    ensures AllHunkHeaders(files[|files| - 1 := f]) ==
      AllHunkHeaders(files[..|files| - 1]) + ChunkContents(f.chunks)
  {
    assert files[|files| - 1 := f][..|files| - 1] == files[..|files| - 1];
  }

  /** What one line does to the list of hunk headers. */
  lemma StepHeaders(s: ScanState, line: string)
    ensures Step(s, line).files != [] <==> (s.files != [] || Opens(Classify(line)))
    ensures AllHunkHeaders(Step(s, line).files) ==
      AllHunkHeaders(s.files) +
        (if Classify(line) == HunkStart && HunkHeader.Parse(line).Some? && s.files != [] then [line] else [])
  {
    var k := Classify(line);
    if Starts(k) {
      StartHeaders(s, line);
      assert AllHunkHeaders(s.files) + [] == AllHunkHeaders(s.files);
    } else if Opens(k) {
      FillHeaders(s, line);
      assert AllHunkHeaders(s.files) + [] == AllHunkHeaders(s.files);
    } else {
      BodyHeaders(s, line);
    }
  }

  lemma StartHeaders(s: ScanState, line: string)
    requires Starts(Classify(line))
    ensures Step(s, line).files != []
    ensures AllHunkHeaders(Step(s, line).files) == AllHunkHeaders(s.files)
  {
    match Classify(line)
    case GitStart => AppendFileHeaders(s.files, GitRecord(line));
    case HgStart => AppendFileHeaders(s.files, EmptyFile);
    case SvnIndex => AppendFileHeaders(s.files, SvnRecord(line));
  }

  lemma FillHeaders(s: ScanState, line: string)
    requires Opens(Classify(line)) && !Starts(Classify(line))
    ensures Step(s, line).files != []
    ensures AllHunkHeaders(Step(s, line).files) == AllHunkHeaders(s.files)
  {
    match Classify(line)
    case NewFileMode | DeletedFileMode | IndexLine | OldPath | NewPath =>
      ReopenHeaders(s.files, Fill(Last(Reopen(s.files)), line));
  }

  lemma BodyHeaders(s: ScanState, line: string)
    requires !Opens(Classify(line))
    ensures Step(s, line).files != [] <==> (s.files != [] || Opens(Classify(line)))
    ensures AllHunkHeaders(Step(s, line).files) ==
      AllHunkHeaders(s.files) +
        (if Classify(line) == HunkStart && HunkHeader.Parse(line).Some? && s.files != [] then [line] else [])
  {
    match Classify(line)
    case HunkStart => OpenChunkHeaders(s, line);
    case Content(t) => RecordHeaders(s, line, t);
    case Other =>
  }

  /** Replacing the current record by one whose hunk headers extend its
      own extends the list of all hunk headers the same way. */
  lemma ReplaceLastHeadersBy(files: seq<File>, f: File, extra: seq<string>)
    requires files != []
    requires ChunkContents(f.chunks) == ChunkContents(Last(files).chunks) + extra
    ensures AllHunkHeaders(files[|files| - 1 := f]) == AllHunkHeaders(files) + extra
  {
    ReplaceLastFileHeaders(files, f);
    ReplaceLastFileHeaders(files, Last(files));
    assert files[|files| - 1 := Last(files)] == files;
  }

  lemma AppendChunkContents(chunks: seq<Chunk>, ch: Chunk)
    ensures ChunkContents(chunks + [ch]) == ChunkContents(chunks) + [ch.content]
  {
    assert (chunks + [ch])[..|chunks|] == chunks;
  }

  lemma OpenChunkHeaders(s: ScanState, line: string)
    ensures OpenChunk(s, line).files != [] <==> s.files != []
    ensures AllHunkHeaders(OpenChunk(s, line).files) ==
      AllHunkHeaders(s.files) + (if HunkHeader.Parse(line).Some? && s.files != [] then [line] else [])
  {
    match HunkHeader.Parse(line)
    case None =>
    case Some(h) =>
      if s.files != [] {
        var ch := Chunk(line, h.oldStart, h.oldLines, h.newStart, h.newLines, []);
        AppendChunkHeaders(s.files, ch);
      }
  }

  /** A chunk added to the current record adds its header to the list. */
  lemma AppendChunkHeaders(files: seq<File>, ch: Chunk)
    requires files != []
    ensures var f := Last(files);
      AllHunkHeaders(files[|files| - 1 := f.(chunks := f.chunks + [ch])]) == AllHunkHeaders(files) + [ch.content]
  {
    var f := Last(files);
    AppendChunkContents(f.chunks, ch);
    ReplaceLastHeadersBy(files, f.(chunks := f.chunks + [ch]), [ch.content]);
  }

  lemma RecordHeaders(s: ScanState, line: string, t: ChangeType)
    ensures Record(s, line, t).files != [] <==> s.files != []
    ensures AllHunkHeaders(Record(s, line, t).files) == AllHunkHeaders(s.files)
  {
    if s.files != [] && Last(s.files).chunks != [] {
      var f := Last(s.files);
      var ch := Last(f.chunks);
      var ch' := ch.(changes := ch.changes + [NextChange(s, line, t)]);
      var f' := f.(chunks := f.chunks[|f.chunks| - 1 := ch']);
      ReplaceLastChunkContents(f.chunks, ch');
      assert ChunkContents(f'.chunks) == ChunkContents(f.chunks) + [];
      ReplaceLastHeadersBy(s.files, f', []);
      RecordShape(s, line, t);
    }
  }

  /** Header lines that fill in the current record leave the hunk headers
      alone. */
  lemma ReopenHeaders(files: seq<File>, f: File)
    requires f.chunks == Last(Reopen(files)).chunks
    ensures var fs := Reopen(files);
      AllHunkHeaders(fs[|fs| - 1 := f]) == AllHunkHeaders(files)
  {
    var fs := Reopen(files);
    ReplaceLastFileHeaders(fs, f);
    ReplaceLastFileHeaders(fs, Last(fs));
    assert fs[|fs| - 1 := Last(fs)] == fs;
    if fs != files {
      AppendFileHeaders(files, EmptyFile);
      assert fs == files + [EmptyFile];
    }
  }

  /** One chunk per well-formed `@@` header after the first header line,
      in input order; with `ChunkNumbersFromHeader` this says the numbers
      of the n-th chunk are those of the n-th hunk header. The list of
      records is non-empty exactly when some line opened one. */
  lemma {:induction false} HunksInInputOrder(lines: seq<string>)
    ensures AllHunkHeaders(Run(lines).files) == HunkLines(lines)
    ensures Run(lines).files != [] <==> AnyOpens(lines)
    decreases |lines|
  {
    if lines != [] {
      var init := lines[..|lines| - 1];
      HunksInInputOrder(init);
      StepHeaders(Run(init), Last(lines));
      AnyOpensSnoc(lines);
    }
  }

  lemma AnyOpensSnoc(lines: seq<string>)
    requires lines != []
    ensures AnyOpens(lines) <==> AnyOpens(lines[..|lines| - 1]) || Opens(Classify(Last(lines)))
  {
    var init := lines[..|lines| - 1];
    var n := |lines| - 1;
    if AnyOpens(init) {
      var i :| 0 <= i < |init| && Opens(Classify(init[i]));
      assert lines[i] == init[i];
      assert 0 <= i < |lines| && Opens(Classify(lines[i]));
    }
    if Opens(Classify(Last(lines))) {
      assert 0 <= n < |lines| && Opens(Classify(lines[n]));
    }
    if AnyOpens(lines) && !Opens(Classify(Last(lines))) {
      var i :| 0 <= i < |lines| && Opens(Classify(lines[i]));
      assert i != n;
      assert init[i] == lines[i];
      assert 0 <= i < |init| && Opens(Classify(init[i]));
    }
  }

  /** One line appends at most one record and changes none but the current
      one: a `diff`/`Index:` line always appends one, the other header lines
      append one only when there is no record or the current one has hunks,
      and content, hunk and other lines never do. */
  lemma StepRecords(s: ScanState, line: string)
    ensures var r := Step(s, line).files;
      && r[..|s.files| - 1 + (if s.files == [] then 1 else 0)] == s.files[..|s.files| - 1 + (if s.files == [] then 1 else 0)]
      && (Starts(Classify(line)) ==> |r| == |s.files| + 1 && r[..|s.files|] == s.files)
      && (Opens(Classify(line)) && !Starts(Classify(line)) ==>
            |r| == |s.files| + (if s.files == [] || Last(s.files).chunks != [] then 1 else 0))
      && (!Opens(Classify(line)) ==> |r| == |s.files|)
  {
    if s.files != [] && Last(s.files).chunks != [] {
      assert Reopen(s.files)[..|s.files|] == s.files;
    }
  }

  /** Once a record is no longer the current one it never changes again:
      scanning more lines only touches the last record and appends new ones. */
  lemma {:induction false} ClosedRecordsStay(lines: seq<string>, more: seq<string>)
    ensures |Run(lines).files| <= |Run(lines + more).files|
    ensures forall i :: 0 <= i < |Run(lines).files| - 1 ==> Run(lines + more).files[i] == Run(lines).files[i]
    decreases |more|
  {
    if more == [] {
      assert lines + more == lines;
    } else {
      var init := more[..|more| - 1];
      ClosedRecordsStay(lines, init);
      RunAppendLast(lines, more);
      StepKeepsClosed(Run(lines + init), Last(more));
    }
  }

  /** Scanning `a + b` is scanning all but the last line of `b` after `a`,
      then that line. */
  lemma RunAppendLast(a: seq<string>, b: seq<string>)
    requires b != []
    ensures Run(a + b) == Step(Run(a + b[..|b| - 1]), Last(b))
  {
    var c := a + b;
    assert c[..|c| - 1] == a + b[..|b| - 1];
    assert Last(c) == Last(b);
    RunLast(c);
  }

  lemma RunLast(lines: seq<string>)
    requires lines != []
    ensures Run(lines) == Step(Run(lines[..|lines| - 1]), Last(lines))
  {
  }

  /** One step keeps every record before the current one. */
  lemma StepKeepsClosed(s: ScanState, line: string)
    ensures |s.files| <= |Step(s, line).files|
    ensures forall i :: 0 <= i < |s.files| - 1 ==> Step(s, line).files[i] == s.files[i]
  {
    StepRecords(s, line);
    var r := Step(s, line).files;
    forall i | 0 <= i < |s.files| - 1 ensures r[i] == s.files[i] {
      assert r[i] == r[..|s.files| - 1][i];
      assert s.files[i] == s.files[..|s.files| - 1][i];
    }
  }

  // ---------------------------------------------------------------------------
  // Which lines become changes

  /** The lines of the given changes, in order. */
  function ChangeTexts(cs: seq<Change>): seq<string>
    decreases |cs|
  {
    if cs == [] then [] else ChangeTexts(cs[..|cs| - 1]) + [Last(cs).content]
  }

  /** The lines of every change of the given chunks, in order. */
  function ChunkChangeTexts(chunks: seq<Chunk>): seq<string>
    decreases |chunks|
  {
    if chunks == [] then [] else ChunkChangeTexts(chunks[..|chunks| - 1]) + ChangeTexts(Last(chunks).changes)
  }

  /** The lines of every change of every chunk of every record, in order. */
  function ChangeContents(files: seq<File>): seq<string>
    decreases |files|
  {
    if files == [] then [] else ChangeContents(files[..|files| - 1]) + ChunkChangeTexts(Last(files).chunks)
  }

  /** After the given lines a hunk is open: some well-formed `@@` line came
      after a line that opened a record, and no line since has opened one. */
  predicate HunkOpen(lines: seq<string>)
    decreases |lines|
  {
    if lines == [] then false
    else
      var init := lines[..|lines| - 1];
      var line := Last(lines);
      if Opens(Classify(line)) then false
      else if Classify(line) == HunkStart && HunkHeader.Parse(line).Some? && AnyOpens(init) then true
      else HunkOpen(init)
  }

  /** The input lines that become changes: every change line that comes
      while a hunk is open. */
  function ChangeLines(lines: seq<string>): seq<string>
    decreases |lines|
  {
    if lines == [] then []
    else
      var init := lines[..|lines| - 1];
      ChangeLines(init) + (if Classify(Last(lines)).Content? && HunkOpen(init) then [Last(lines)] else [])
  }

  /** The current record has a chunk, so a change line has a place to go. */
  predicate ChunkOpenIn(files: seq<File>) {
    files != [] && Last(files).chunks != []
  }

  /** Every change line that comes while a hunk is open becomes, in input
      order, the next change, and no other line does; a hunk is open exactly
      when the current record has a chunk. With `PositionsRunFromOne` and
      `TypeFromMarker` this fixes every change's content, position and
      type. */
  lemma {:induction false} ChangesInInputOrder(lines: seq<string>)
    ensures ChangeContents(Run(lines).files) == ChangeLines(lines)
    ensures HunkOpen(lines) <==> ChunkOpenIn(Run(lines).files)
    decreases |lines|
  {
    if lines != [] {
      var init := lines[..|lines| - 1];
      ChangesInInputOrder(init);
      HunksInInputOrder(init);
      StepChanges(Run(init), Last(lines));
    }
  }

  /** What one line does to the list of change lines and to whether a
      chunk is open. */
  lemma StepChanges(s: ScanState, line: string)
    ensures ChunkOpenIn(Step(s, line).files) <==>
      !Opens(Classify(line)) &&
      ((Classify(line) == HunkStart && HunkHeader.Parse(line).Some? && s.files != []) || ChunkOpenIn(s.files))
    ensures ChangeContents(Step(s, line).files) ==
      ChangeContents(s.files) + (if Classify(line).Content? && ChunkOpenIn(s.files) then [line] else [])
  {
    var k := Classify(line);
    if Starts(k) {
      StartChanges(s, line);
    } else if Opens(k) {
      FillChanges(s, line);
    } else {
      match k
      case HunkStart => OpenChunkChanges(s, line);
      case Content(t) => RecordChanges(s, line, t);
      case Other => assert ChangeContents(s.files) + [] == ChangeContents(s.files);
    }
  }

  lemma StartChanges(s: ScanState, line: string)
    requires Starts(Classify(line))
    ensures !ChunkOpenIn(Step(s, line).files)
    ensures ChangeContents(Step(s, line).files) == ChangeContents(s.files) + []
  {
    match Classify(line)
    case GitStart => AppendFileChanges(s.files, GitRecord(line));
    case HgStart => AppendFileChanges(s.files, EmptyFile);
    case SvnIndex => AppendFileChanges(s.files, SvnRecord(line));
  }

  lemma FillChanges(s: ScanState, line: string)
    requires Opens(Classify(line)) && !Starts(Classify(line))
    ensures !ChunkOpenIn(Step(s, line).files)
    ensures ChangeContents(Step(s, line).files) == ChangeContents(s.files) + []
  {
    StepFills(s, line);
    ReopenChanges(s.files, Fill(Last(Reopen(s.files)), line));
  }


  lemma OpenChunkChanges(s: ScanState, line: string)
    ensures ChunkOpenIn(OpenChunk(s, line).files) <==>
      (HunkHeader.Parse(line).Some? && s.files != []) || ChunkOpenIn(s.files)
    ensures ChangeContents(OpenChunk(s, line).files) == ChangeContents(s.files) + []
  {
    match HunkHeader.Parse(line)
    case None =>
    case Some(h) =>
      if s.files != [] {
        var f := Last(s.files);
        var ch := Chunk(line, h.oldStart, h.oldLines, h.newStart, h.newLines, []);
        AppendChunkTexts(f.chunks, ch);
        assert ChunkChangeTexts(f.chunks + [ch]) == ChunkChangeTexts(f.chunks) + [];
        ReplaceLastChangesBy(s.files, f.(chunks := f.chunks + [ch]), []);
      }
  }

  lemma RecordChanges(s: ScanState, line: string, t: ChangeType)
    ensures ChunkOpenIn(Record(s, line, t).files) <==> ChunkOpenIn(s.files)
    ensures ChangeContents(Record(s, line, t).files) ==
      ChangeContents(s.files) + (if ChunkOpenIn(s.files) then [line] else [])
  {
    if ChunkOpenIn(s.files) {
      var f := Last(s.files);
      var ch := Last(f.chunks);
      var c := NextChange(s, line, t);
      var ch' := ch.(changes := ch.changes + [c]);
      var f' := f.(chunks := f.chunks[|f.chunks| - 1 := ch']);
      AppendChangeText(ch.changes, c);
      ReplaceLastChunkTexts(f.chunks, ch', [line]);
      ReplaceLastChangesBy(s.files, f', [line]);
      RecordShape(s, line, t);
    } else {
      assert ChangeContents(s.files) + [] == ChangeContents(s.files);
    }
  }

  lemma AppendChangeText(cs: seq<Change>, c: Change)
    ensures ChangeTexts(cs + [c]) == ChangeTexts(cs) + [c.content]
  {
    assert (cs + [c])[..|cs|] == cs;
  }

  lemma AppendChunkTexts(chunks: seq<Chunk>, ch: Chunk)
    ensures ChunkChangeTexts(chunks + [ch]) == ChunkChangeTexts(chunks) + ChangeTexts(ch.changes)
  {
    assert (chunks + [ch])[..|chunks|] == chunks;
  }

  /** Replacing the current chunk by one whose change lines extend its own
      extends the record's change lines the same way. */
  lemma ReplaceLastChunkTexts(chunks: seq<Chunk>, ch: Chunk, extra: seq<string>)
    requires chunks != [] && ChangeTexts(ch.changes) == ChangeTexts(Last(chunks).changes) + extra
    ensures ChunkChangeTexts(chunks[|chunks| - 1 := ch]) == ChunkChangeTexts(chunks) + extra
  {
    assert chunks[|chunks| - 1 := ch][..|chunks| - 1] == chunks[..|chunks| - 1];
  }

  lemma AppendFileChanges(files: seq<File>, f: File)
    ensures ChangeContents(files + [f]) == ChangeContents(files) + ChunkChangeTexts(f.chunks)
  {
    assert (files + [f])[..|files|] == files;
  }

  lemma ReplaceLastFileChanges(files: seq<File>, f: File)
    requires files != []
    ensures ChangeContents(files[|files| - 1 := f]) == ChangeContents(files[..|files| - 1]) + ChunkChangeTexts(f.chunks)
  {
    assert files[|files| - 1 := f][..|files| - 1] == files[..|files| - 1];
  }

  /** Replacing the current record by one whose change lines extend its
      own extends the list of all change lines the same way. */
  lemma ReplaceLastChangesBy(files: seq<File>, f: File, extra: seq<string>)
    requires files != []
    requires ChunkChangeTexts(f.chunks) == ChunkChangeTexts(Last(files).chunks) + extra
    ensures ChangeContents(files[|files| - 1 := f]) == ChangeContents(files) + extra
  {
    ReplaceLastFileChanges(files, f);
    ReplaceLastFileChanges(files, Last(files));
    assert files[|files| - 1 := Last(files)] == files;
  }

  /** Header lines that fill in the current record leave the change lines
      alone, and the record they leave current has no chunk. */
  lemma ReopenChanges(files: seq<File>, f: File)
    requires f.chunks == Last(Reopen(files)).chunks
    ensures var fs := Reopen(files);
      && ChangeContents(fs[|fs| - 1 := f]) == ChangeContents(files) + []
      && f.chunks == []
  {
    var fs := Reopen(files);
    ReplaceLastFileChanges(fs, f);
    ReplaceLastFileChanges(fs, Last(fs));
    assert fs[|fs| - 1 := Last(fs)] == fs;
    if fs != files {
      AppendFileChanges(files, EmptyFile);
      assert fs == files + [EmptyFile];
    }
  }

  // ---------------------------------------------------------------------------
  // File sections are scanned independently

  /** `big` is the scan of some earlier text followed by the lines that gave
      `small`: it holds the earlier records `before` and then the records of
      `small`, and once a chunk is open the counters agree. */
  predicate Extends(big: ScanState, before: seq<File>, small: ScanState) {
    && big.files == before + small.files
    && small.files != []
    && (Last(small.files).chunks != [] ==>
          big.position == small.position && big.oldLine == small.oldLine && big.newLine == small.newLine)
  }

  lemma LastOfAppend(before: seq<File>, files: seq<File>)
    requires files != []
    ensures Last(before + files) == Last(files)
  {
  }

  lemma StepExtends(big: ScanState, before: seq<File>, small: ScanState, line: string)
    requires Extends(big, before, small)
    ensures Extends(Step(big, line), before, Step(small, line))
  {
    var k := Classify(line);
    LastOfAppend(before, small.files);
    if Starts(k) {
      StartExtends(big, before, small, line);
    } else if Opens(k) {
      FillExtends(big, before, small, line);
    } else if k == HunkStart {
      OpenChunkExtends(big, before, small, line);
    } else if k.Content? {
      RecordExtends(big, before, small, line, k.t);
    }
  }

  lemma StartExtends(big: ScanState, before: seq<File>, small: ScanState, line: string)
    requires Extends(big, before, small) && Starts(Classify(line))
    ensures Extends(Step(big, line), before, Step(small, line))
  {
    match Classify(line)
    case GitStart => assert (before + small.files) + [GitRecord(line)] == before + (small.files + [GitRecord(line)]);
    case HgStart => assert (before + small.files) + [EmptyFile] == before + (small.files + [EmptyFile]);
    case SvnIndex => assert (before + small.files) + [SvnRecord(line)] == before + (small.files + [SvnRecord(line)]);
  }

  lemma FillExtends(big: ScanState, before: seq<File>, small: ScanState, line: string)
    requires Extends(big, before, small) && Opens(Classify(line)) && !Starts(Classify(line))
    ensures Extends(Step(big, line), before, Step(small, line))
  {
    LastOfAppend(before, small.files);
    var fs := Reopen(small.files);
    assert Reopen(big.files) == before + fs;
    LastOfAppend(before, fs);
    var g := Fill(Last(fs), line);
    assert (before + fs)[|before + fs| - 1 := g] == before + fs[|fs| - 1 := g];
  }

  lemma OpenChunkExtends(big: ScanState, before: seq<File>, small: ScanState, line: string)
    requires Extends(big, before, small)
    ensures Extends(OpenChunk(big, line), before, OpenChunk(small, line))
  {
    match HunkHeader.Parse(line)
    case None =>
    case Some(h) =>
      LastOfAppend(before, small.files);
      var f := Last(small.files);
      var g := f.(chunks := f.chunks + [Chunk(line, h.oldStart, h.oldLines, h.newStart, h.newLines, [])]);
      assert big.files[|big.files| - 1 := g] == before + small.files[|small.files| - 1 := g];
  }

  lemma RecordExtends(big: ScanState, before: seq<File>, small: ScanState, line: string, t: ChangeType)
    requires Extends(big, before, small)
    ensures Extends(Record(big, line, t), before, Record(small, line, t))
  {
    LastOfAppend(before, small.files);
    if Last(small.files).chunks != [] {
      var f := Last(small.files);
      var ch := Last(f.chunks);
      var c := Change(line, t, small.position + 1,
                      if t != Add then Some(small.oldLine) else None,
                      if t != Del then Some(small.newLine) else None);
      var g := f.(chunks := f.chunks[|f.chunks| - 1 := ch.(changes := ch.changes + [c])]);
      assert big.files[|big.files| - 1 := g] == before + small.files[|small.files| - 1 := g];
    }
  }

  /** Lines from a `diff`/`Index:` line on are scanned as if nothing came
      before them: the records of the whole text are those of the earlier
      text followed by those of the new section. */
  lemma {:induction false} SectionsIndependent(earlier: seq<string>, section: seq<string>)
    requires section != [] && Starts(Classify(section[0]))
    ensures Run(earlier + section).files == Run(earlier).files + Run(section).files
  {
    SectionExtends(earlier, section);
  }

  lemma {:induction false} SectionExtends(earlier: seq<string>, section: seq<string>)
    requires section != [] && Starts(Classify(section[0]))
    ensures Extends(Run(earlier + section), Run(earlier).files, Run(section))
    decreases |section|
  {
    var n := |section|;
    if n == 1 {
      assert (earlier + section)[..|earlier|] == earlier;
      assert section[..0] == [];
      StepExtendsFirst(Run(earlier), section[0]);
    } else {
      var init := section[..n - 1];
      assert init[0] == section[0];
      SectionExtends(earlier, init);
      RunAppendLast(earlier, section);
      StepExtends(Run(earlier + init), Run(earlier).files, Run(init), Last(section));
    }
  }

  lemma StepExtendsFirst(s: ScanState, line: string)
    requires Starts(Classify(line))
    ensures Extends(Step(s, line), s.files, Step(Initial, line))
  {
  }
}
