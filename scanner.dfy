/** The single left-to-right scan over the lines of a diff. It keeps the
    list of file records, whose last element is the record being filled
    (the current file), whose last chunk is the current chunk, and three
    counters: the running position and the old- and new-side line numbers. */
module Scanner {
  import opened Wrappers
  import opened Text
  import opened DiffTypes
  import opened LineClassifier
  import Headers
  import HunkHeader

  datatype ScanState = ScanState(files: seq<File>, position: nat, oldLine: nat, newLine: nat)

  const Initial := ScanState([], 0, 0, 0)

  function Last<T>(s: seq<T>): T
    requires |s| > 0
  {
    s[|s| - 1]
  }

  // ---------------------------------------------------------------------------
  // One step of the scan

  /** The record a `diff --git a/X b/Y` line opens: its paths without the
      git prefixes, or none when the line does not carry two paths. */
  function GitRecord(line: string): File
    requires StartsWith(line, "diff --git ")
  {
    match Headers.GitPaths(line[11..])
    case None => EmptyFile
    case Some((a, b)) => EmptyFile.(from := Some(a), to := Some(b))
  }

  /** The record an `Index: PATH` line opens: the same path on both sides. */
  function SvnRecord(line: string): File
    requires StartsWith(line, "Index: ")
  {
    var p := Headers.SvnPath(line[7..]);
    EmptyFile.(from := Some(p), to := Some(p))
  }

  /** Header lines other than `diff`/`Index:` keep filling the current
      record while it is still in its header, and open a new one once it
      has hunks (or when there is none yet). */
  function Reopen(files: seq<File>): (r: seq<File>)
    ensures |r| > 0
  {
    if files == [] || Last(files).chunks != [] then files + [EmptyFile] else files
  }

  /** What a header line that is not `diff`/`Index:` records in the current
      record: the mode lines set the flag and the sentinel path, the marker
      lines set the path, and a `---` path of `/dev/null` marks the record
      new, a `+++` path of `/dev/null` deleted. */
  function Fill(f: File, line: string): (g: File)
    ensures g.chunks == f.chunks && g.renamed == f.renamed
    ensures f.isNew ==> g.isNew
    ensures f.deleted ==> g.deleted
    ensures g.isNew && !f.isNew ==> g.from == Some(DevNull)
    ensures g.deleted && !f.deleted ==> g.to == Some(DevNull)
    ensures g.from != f.from ==> Classify(line) in {NewFileMode, OldPath}
    ensures g.to != f.to ==> Classify(line) in {DeletedFileMode, NewPath}
  {
    match Classify(line)
    case NewFileMode => f.(isNew := true, from := Some(DevNull))
    case DeletedFileMode => f.(deleted := true, to := Some(DevNull))
    case OldPath =>
      var p := Headers.MarkerPath(line[4..]);
      f.(from := Some(p), isNew := f.isNew || p == DevNull)
    case NewPath =>
      var p := Headers.MarkerPath(line[4..]);
      f.(to := Some(p), deleted := f.deleted || p == DevNull)
    case _ => f
  }

  /** What each header line does to the record it fills: `new file mode`
      marks it new from the sentinel, `deleted file mode` marks it deleted
      to the sentinel, `---`/`+++` set the old/new path from the line and
      mark the record new/deleted when that path is the sentinel; any other
      line leaves it as it is. */
  lemma FillByTag(f: File, line: string)
    ensures var g := Fill(f, line);
      && (Classify(line) == NewFileMode ==> g.isNew && g.from == Some(DevNull) && g.to == f.to && g.deleted == f.deleted)
      && (Classify(line) == DeletedFileMode ==> g.deleted && g.to == Some(DevNull) && g.from == f.from && g.isNew == f.isNew)
      && (Classify(line) == OldPath ==>
           && g.from == Some(Headers.MarkerPath(line[4..])) && g.to == f.to
           && (g.isNew <==> f.isNew || g.from == Some(DevNull)) && g.deleted == f.deleted)
      && (Classify(line) == NewPath ==>
           && g.to == Some(Headers.MarkerPath(line[4..])) && g.from == f.from
           && (g.deleted <==> f.deleted || g.to == Some(DevNull)) && g.isNew == f.isNew)
      && (Classify(line) !in {NewFileMode, DeletedFileMode, OldPath, NewPath} ==> g == f)
  {
    match Classify(line)
    case NewFileMode =>
    case DeletedFileMode =>
    case OldPath =>
    case NewPath =>
    case _ =>
  }

  /** A hunk header opens a new chunk in the current record and resets the
      counters; a line that does not follow the grammar, or one with no
      record open, is skipped. */
  function OpenChunk(s: ScanState, line: string): ScanState {
    match HunkHeader.Parse(line)
    case None => s
    case Some(h) =>
      if s.files == [] then s
      else
        var f := Last(s.files);
        var ch := Chunk(line, h.oldStart, h.oldLines, h.newStart, h.newLines, []);
        ScanState(s.files[|s.files| - 1 := f.(chunks := f.chunks + [ch])], 0, h.oldStart, h.newStart)
  }

  /** A content line becomes the next change of the current chunk; with no
      chunk open it is skipped. */
  function Record(s: ScanState, line: string, t: ChangeType): ScanState {
    if s.files == [] || Last(s.files).chunks == [] then s
    else
      var f := Last(s.files);
      var ch := Last(f.chunks);
      var c := Change(line, t, s.position + 1,
                      if t != Add then Some(s.oldLine) else None,
                      if t != Del then Some(s.newLine) else None);
      var ch' := ch.(changes := ch.changes + [c]);
      ScanState(s.files[|s.files| - 1 := f.(chunks := f.chunks[|f.chunks| - 1 := ch'])],
                s.position + 1,
                if t != Add then s.oldLine + 1 else s.oldLine,
                if t != Del then s.newLine + 1 else s.newLine)
  }

  /** One line of the scan, by its tag: `diff --git`, `diff -r` and
      `Index:` append a record; the other header lines fill the current
      record, reopening one first when needed; a hunk header opens a chunk;
      a content line becomes a change; anything else is skipped. */
  function Step(s: ScanState, line: string): ScanState {
    match Classify(line)
    case GitStart => s.(files := s.files + [GitRecord(line)])
    case HgStart => s.(files := s.files + [EmptyFile])
    case SvnIndex => s.(files := s.files + [SvnRecord(line)])
    case NewFileMode | DeletedFileMode | IndexLine | OldPath | NewPath =>
      var fs := Reopen(s.files);
      s.(files := fs[|fs| - 1 := Fill(Last(fs), line)])
    case HunkStart => OpenChunk(s, line)
    case Content(t) => Record(s, line, t)
    case Other => s
  }

  /** A header line other than `diff`/`Index:` fills the last record of
      `Reopen` and leaves the counters alone. */
  lemma StepFills(s: ScanState, line: string)
    requires Opens(Classify(line)) && !Starts(Classify(line))
    ensures var fs := Reopen(s.files);
      Step(s, line) == s.(files := fs[|fs| - 1 := Fill(Last(fs), line)])
  {
    match Classify(line)
    case NewFileMode =>
    case DeletedFileMode =>
    case IndexLine =>
    case OldPath =>
    case NewPath =>
  }

  /** The state after scanning the given lines from the start. */
  function Run(lines: seq<string>): ScanState
    decreases |lines|
  {
    if lines == [] then Initial else Step(Run(lines[..|lines| - 1]), Last(lines))
  }

  /** The scan as a loop over the lines. */
  method ScanLines(lines: seq<string>) returns (files: seq<File>)
    ensures files == Run(lines).files
  {
    files := [];
    var position, oldLine, newLine := 0, 0, 0;
    var i := 0;
    while i < |lines|
      invariant i <= |lines|
      invariant Run(lines[..i]) == ScanState(files, position, oldLine, newLine)
    {
      assert lines[..i + 1][..i] == lines[..i];
      files, position, oldLine, newLine := Feed(files, position, oldLine, newLine, lines[i]);
      i := i + 1;
    }
    assert lines[..|lines|] == lines;
  }

  /** One line of the scan: the current record and chunk are updated in
      place at the end of the list, and the counters move on. `Feed` and
      its helpers `StartChunk`, `AddChange`, `FillCurrent` and `OpenIfNeeded`
      are the statement form of `Step`, `OpenChunk`, `Record`, the filling
      case of `Step` and `Reopen`, case by case; each is proved equal to
      the function it renders. */
  method Feed(files0: seq<File>, position0: nat, oldLine0: nat, newLine0: nat, line: string)
    returns (files: seq<File>, position: nat, oldLine: nat, newLine: nat)
    ensures ScanState(files, position, oldLine, newLine) == Step(ScanState(files0, position0, oldLine0, newLine0), line)
  {
    // Each case closes with the step it performs, so that the cases are
    // proved one at a time.
    ghost var s0 := ScanState(files0, position0, oldLine0, newLine0);
    files, position, oldLine, newLine := files0, position0, oldLine0, newLine0;
    match Classify(line) {
      case GitStart =>
        files := files + [GitRecord(line)];
        assert ScanState(files, position, oldLine, newLine) == Step(s0, line);
      case HgStart =>
        files := files + [EmptyFile];
        assert ScanState(files, position, oldLine, newLine) == Step(s0, line);
      case SvnIndex =>
        files := files + [SvnRecord(line)];
        assert ScanState(files, position, oldLine, newLine) == Step(s0, line);
      case NewFileMode | DeletedFileMode | IndexLine | OldPath | NewPath =>
        StepFills(s0, line);
        files := FillCurrent(files, line);
        assert ScanState(files, position, oldLine, newLine) == Step(s0, line);
      case HunkStart =>
        files, position, oldLine, newLine := StartChunk(files, position, oldLine, newLine, line);
        assert ScanState(files, position, oldLine, newLine) == Step(s0, line);
      case Content(t) =>
        files, position, oldLine, newLine := AddChange(files, position, oldLine, newLine, line, t);
        assert ScanState(files, position, oldLine, newLine) == Step(s0, line);
      case Other =>
    }
  }

  /** A hunk header line: a new chunk at the end of the current record. */
  method StartChunk(files0: seq<File>, position0: nat, oldLine0: nat, newLine0: nat, line: string)
    returns (files: seq<File>, position: nat, oldLine: nat, newLine: nat)
    ensures ScanState(files, position, oldLine, newLine) == OpenChunk(ScanState(files0, position0, oldLine0, newLine0), line)
  {
    files, position, oldLine, newLine := files0, position0, oldLine0, newLine0;
    var h := HunkHeader.Parse(line);
    if h.Some? && files != [] {
      var f := files[|files| - 1];
      var ch := Chunk(line, h.value.oldStart, h.value.oldLines, h.value.newStart, h.value.newLines, []);
      files := files[|files| - 1 := f.(chunks := f.chunks + [ch])];
      position, oldLine, newLine := 0, h.value.oldStart, h.value.newStart;
    }
  }

  /** A content line: the next change of the current chunk, with the
      counters moved on. */
  method AddChange(files0: seq<File>, position0: nat, oldLine0: nat, newLine0: nat, line: string, t: ChangeType)
    returns (files: seq<File>, position: nat, oldLine: nat, newLine: nat)
    ensures ScanState(files, position, oldLine, newLine) == Record(ScanState(files0, position0, oldLine0, newLine0), line, t)
  {
    files, position, oldLine, newLine := files0, position0, oldLine0, newLine0;
    if files != [] && files[|files| - 1].chunks != [] {
      var f := files[|files| - 1];
      var ch := f.chunks[|f.chunks| - 1];
      position := position + 1;
      var c := Change(line, t, position,
                      if t != Add then Some(oldLine) else None,
                      if t != Del then Some(newLine) else None);
      if t != Add { oldLine := oldLine + 1; }
      if t != Del { newLine := newLine + 1; }
      ch := ch.(changes := ch.changes + [c]);
      files := files[|files| - 1 := f.(chunks := f.chunks[|f.chunks| - 1 := ch])];
    }
  }

  /** A header line other than `diff`/`Index:`: the current record, opened
      anew if needed, records what the line says. */
  method FillCurrent(files0: seq<File>, line: string) returns (files: seq<File>)
    ensures var fs := Reopen(files0); files == fs[|fs| - 1 := Fill(Last(fs), line)]
  {
    files := OpenIfNeeded(files0);
    files := files[|files| - 1 := Fill(files[|files| - 1], line)];
  }

  /** A new record when there is none or the current one has hunks. */
  method OpenIfNeeded(files0: seq<File>) returns (files: seq<File>)
    ensures files == Reopen(files0)
  {
    files := files0;
    if files == [] || files[|files| - 1].chunks != [] {
      files := files + [EmptyFile];
    }
  }
}
