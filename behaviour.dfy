/** Whole diffs of the shapes the test suite feeds to `parse`, with what it
    expects of them: the records, their paths and flags, and their chunks.
    Each diff starts and ends with a newline, so its first and last lines
    are empty. */
module Behaviour {
  import opened Wrappers
  import opened Text
  import opened DiffTypes
  import opened LineClassifier
  import opened Scanner
  import opened Scenarios
  import ScanProperties
  import HunkHeader
  import Renames
  import DiffParser

  /** A deletion line: `-` and then anything but the `-- ` of a header. */
  predicate DelLine(c: string) {
    |c| > 0 && c[0] == '-' && !StartsWith(c, "--- ")
  }

  /** An addition line: `+` and then anything but the `++ ` of a header. */
  predicate AddLine(c: string) {
    |c| > 0 && c[0] == '+' && !StartsWith(c, "+++ ")
  }

  /** A hunk header line that follows the grammar, with its numbers. */
  predicate HunkOf(hunk: string, h: HunkHeader.HunkHead) {
    StartsWith(hunk, "@@") && HunkHeader.Parse(hunk) == Some(h)
  }

  lemma DelLineKind(c: string)
    requires DelLine(c)
    ensures Classify(c) == Content(Del)
  {
    ClassifyByMarker(c);
  }

  lemma AddLineKind(c: string)
    requires AddLine(c)
    ensures Classify(c) == Content(Add)
  {
    ClassifyByMarker(c);
  }

  lemma DelAddLines(c1: string, c2: string)
    requires DelLine(c1) && AddLine(c2)
    ensures Classify(c1) == Content(Del) && Classify(c2) == Content(Add)
  {
    DelLineKind(c1);
    AddLineKind(c2);
  }

  /** The leading empty line changes nothing and so does a trailing one. */
  lemma Framed(lines: seq<string>)
    ensures Run([""] + lines + [""]) == Run(lines)
  {
    EmptyFirst(lines);
    RunSnoc([""] + lines, "");
    SkipEmpty(Run([""] + lines));
  }

  /** A header that leaves one record with no hunk, then a two-line hunk,
      framed by empty lines. */
  lemma HeaderThenHunk(header: seq<string>, f: File, hunk: string, h: HunkHeader.HunkHead,
                       c1: string, t1: ChangeType, c2: string, t2: ChangeType)
    requires Run(header) == Initial.(files := [f]) && f.chunks == []
    requires HunkOf(hunk, h) && Classify(c1) == Content(t1) && Classify(c2) == Content(t2)
    ensures var fs := Run([""] + header + [hunk, c1, c2] + [""]).files;
      && |fs| == 1 && fs[0] == f.(chunks := fs[0].chunks)
      && |fs[0].chunks| == 1 && TwoLineChunk(fs[0].chunks[0], hunk, h, c1, t1, c2, t2)
  {
    RunTwoLineHunk(header, f, hunk, h, c1, t1, c2, t2);
    Framed(header + [hunk, c1, c2]);
    Regroup([""], header, [hunk, c1, c2], [""]);
  }

  lemma Regroup<T>(a: seq<T>, b: seq<T>, c: seq<T>, d: seq<T>)
    ensures a + (b + c) + d == a + b + c + d
  {
  }

  // ---------------------------------------------------------------------------
  // git

  /** A simple git diff: one record whose paths come without their `a/`
      and `b/` prefixes, one chunk whose content is the hunk header line
      verbatim, and its two changes at positions 1 and 2. */
  lemma SimpleGitDiff(p: string, index: string, hunk: string, h: HunkHeader.HunkHead, c1: string, c2: string)
    requires PlainPath(p) && p != DevNull && StartsWith(index, "index ")
    requires HunkOf(hunk, h) && DelLine(c1) && AddLine(c2)
    ensures var fs := Run([""] + PlainGitHeader(p, index) + [hunk, c1, c2] + [""]).files;
      && |fs| == 1 && fs[0].from == Some(p) && fs[0].to == Some(p)
      && |fs[0].chunks| == 1 && TwoLineChunk(fs[0].chunks[0], hunk, h, c1, Del, c2, Add)
  {
    PlainGitHeaderScan(p, index);
    DelAddLines(c1, c2);
    HeaderThenHunk(PlainGitHeader(p, index), EmptyFile.(from := Some(p), to := Some(p)), hunk, h, c1, Del, c2, Add);
  }

  /** `new file mode`: the record is new, its old path is the sentinel and
      its two added lines are at positions 1 and 2. */
  lemma GitNewFile(p: string, mode: string, index: string, hunk: string, h: HunkHeader.HunkHead, c1: string, c2: string)
    requires PlainPath(p) && p != DevNull
    requires StartsWith(mode, "new file mode") && StartsWith(index, "index ")
    requires HunkOf(hunk, h) && AddLine(c1) && AddLine(c2)
    ensures var fs := Run([""] + NewGitHeader(p, mode, index) + [hunk, c1, c2] + [""]).files;
      && |fs| == 1 && fs[0].isNew && fs[0].from == Some(DevNull) && fs[0].to == Some(p)
      && |fs[0].chunks| == 1 && TwoLineChunk(fs[0].chunks[0], hunk, h, c1, Add, c2, Add)
  {
    NewGitHeaderScan(p, mode, index);
    AddLineKind(c1);
    AddLineKind(c2);
    HeaderThenHunk(NewGitHeader(p, mode, index), File(Some(DevNull), Some(p), true, false, false, []),
                   hunk, h, c1, Add, c2, Add);
  }

  /** `deleted file mode`: the record is deleted, its new path is the
      sentinel and its two removed lines are at positions 1 and 2. */
  lemma GitDeletedFile(p: string, mode: string, index: string, prefix: string,
                       hunk: string, h: HunkHeader.HunkHead, c1: string, c2: string)
    requires PlainPath(p) && p != DevNull && (prefix == "a/" || prefix == "b/")
    requires StartsWith(mode, "deleted file mode") && StartsWith(index, "index ")
    requires HunkOf(hunk, h) && DelLine(c1) && DelLine(c2)
    ensures var fs := Run([""] + DeletedGitHeader(p, mode, index, prefix) + [hunk, c1, c2] + [""]).files;
      && |fs| == 1 && fs[0].deleted && fs[0].from == Some(p) && fs[0].to == Some(DevNull)
      && |fs[0].chunks| == 1 && TwoLineChunk(fs[0].chunks[0], hunk, h, c1, Del, c2, Del)
  {
    DeletedGitHeaderScan(p, mode, index, prefix);
    DelLineKind(c1);
    DelLineKind(c2);
    HeaderThenHunk(DeletedGitHeader(p, mode, index, prefix), File(Some(p), Some(DevNull), false, true, false, []),
                   hunk, h, c1, Del, c2, Del);
  }

  /** A new empty file: no `---`/`+++` pair, so the new path is taken from
      the `diff --git` line and the old one is the sentinel. */
  lemma GitNewEmptyFile(p: string, mode: string, index: string)
    requires PlainPath(p)
    requires StartsWith(mode, "new file mode") && StartsWith(index, "index ")
    ensures Run([""] + [GitLine(p), mode, index] + [""]).files ==
      [File(Some(DevNull), Some(p), true, false, false, [])]
  {
    NewModeStart(p, mode, index);
    Framed([GitLine(p), mode, index]);
  }

  /** A deleted empty file: the old path is taken from the `diff --git`
      line and the new one is the sentinel. */
  lemma GitDeletedEmptyFile(p: string, mode: string, index: string)
    requires PlainPath(p)
    requires StartsWith(mode, "deleted file mode") && StartsWith(index, "index ")
    ensures Run([""] + [GitLine(p), mode, index] + [""]).files ==
      [File(Some(p), Some(DevNull), false, true, false, [])]
  {
    DeletedModeStart(p, mode, index);
    Framed([GitLine(p), mode, index]);
  }

  // ---------------------------------------------------------------------------
  // Other dialects

  /** GNU diff: one record whose paths end at the first whitespace, and one
      chunk per hunk, each with its header line verbatim, its numbers and
      the changes of its change lines. */
  lemma GnuPaths(a: string, ta: string, b: string, tb: string,
                 hunk1: string, h1: HunkHeader.HunkHead, cs1: seq<string>,
                 hunk2: string, h2: HunkHeader.HunkHead, cs2: seq<string>)
    requires PlainPath(a) && PlainPath(b) && a != DevNull && b != DevNull
    requires Trailer(ta) && Trailer(tb)
    requires HunkOf(hunk1, h1) && HunkBody(cs1) && HunkOf(hunk2, h2) && HunkBody(cs2)
    ensures var fs := Run([""] + (GnuHeader(a, ta, b, tb) + ([hunk1] + cs1) + ([hunk2] + cs2)) + [""]).files;
      && |fs| == 1 && fs[0] == EmptyFile.(from := Some(a), to := Some(b), chunks := fs[0].chunks)
      && |fs[0].chunks| == 2
      && HunkChunk(fs[0].chunks[0], hunk1, h1, ChangeLinesOf(cs1))
      && HunkChunk(fs[0].chunks[1], hunk2, h2, ChangeLinesOf(cs2))
  {
    var header := GnuHeader(a, ta, b, tb);
    GnuHeaderScan(a, ta, b, tb);
    var ch1, ch2 := OneRecordTwoHunks(header, EmptyFile.(from := Some(a), to := Some(b)), hunk1, h1, cs1, hunk2, h2, cs2);
    Framed(header + ([hunk1] + cs1) + ([hunk2] + cs2));
  }

  /** hg: one record whose paths lose the tab-separated date and the
      `a/`/`b/` prefixes, and its chunk with the header line verbatim. */
  lemma HgPaths(revs: string, a: string, ta: string, b: string, tb: string,
                hunk: string, h: HunkHeader.HunkHead, cs: seq<string>)
    requires PlainPath(a) && PlainPath(b) && a != DevNull && b != DevNull
    requires Trailer(ta) && Trailer(tb)
    requires HunkOf(hunk, h) && HunkBody(cs)
    ensures var fs := Run([""] + (HgHeader(revs, a, ta, b, tb) + ([hunk] + cs)) + [""]).files;
      && |fs| == 1 && fs[0] == EmptyFile.(from := Some(a), to := Some(b), chunks := fs[0].chunks)
      && |fs[0].chunks| == 1 && HunkChunk(fs[0].chunks[0], hunk, h, ChangeLinesOf(cs))
  {
    var header := HgHeader(revs, a, ta, b, tb);
    HgHeaderScan(revs, a, ta, b, tb);
    var ch := OneRecordHunk(header, EmptyFile.(from := Some(a), to := Some(b)), hunk, h, cs);
    Framed(header + ([hunk] + cs));
  }

  /** An svn block: its `Index:` line, rule, marker lines and one hunk. */
  function SvnBlock(p: string, rule: string, ta: string, tb: string, hunk: string, cs: seq<string>): seq<string> {
    SvnHeader(p, rule, ta, tb) + ([hunk] + cs)
  }

  /** An svn block alone gives one record with its path on both sides and
      its one chunk. */
  lemma SvnBlockScan(p: string, rule: string, ta: string, tb: string, hunk: string, h: HunkHeader.HunkHead, cs: seq<string>)
    requires PlainPath(p) && p != DevNull && IsRule(rule) && Trailer(ta) && Trailer(tb)
    requires HunkOf(hunk, h) && HunkBody(cs)
    ensures var fs := Run(SvnBlock(p, rule, ta, tb, hunk, cs)).files;
      && |fs| == 1 && fs[0] == EmptyFile.(from := Some(p), to := Some(p), chunks := fs[0].chunks)
      && |fs[0].chunks| == 1 && HunkChunk(fs[0].chunks[0], hunk, h, ChangeLinesOf(cs))
  {
    SvnHeaderScan(p, rule, ta, tb);
    var ch := OneRecordHunk(SvnHeader(p, rule, ta, tb), EmptyFile.(from := Some(p), to := Some(p)), hunk, h, cs);
  }

  /** svn: wherever it appears, an `Index:` block adds one record, with the
      block's path on both sides and the block's chunk, after the records
      before it. */
  lemma SvnBlockAppends(earlier: seq<string>, p: string, rule: string, ta: string, tb: string,
                        hunk: string, h: HunkHeader.HunkHead, cs: seq<string>)
    requires PlainPath(p) && p != DevNull && IsRule(rule) && Trailer(ta) && Trailer(tb)
    requires HunkOf(hunk, h) && HunkBody(cs)
    ensures var fs := Run(earlier + SvnBlock(p, rule, ta, tb, hunk, cs)).files;
      && |fs| == |Run(earlier).files| + 1 && fs[..|fs| - 1] == Run(earlier).files
      && Last(fs) == EmptyFile.(from := Some(p), to := Some(p), chunks := Last(fs).chunks)
      && |Last(fs).chunks| == 1 && HunkChunk(Last(fs).chunks[0], hunk, h, ChangeLinesOf(cs))
  {
    var block := SvnBlock(p, rule, ta, tb, hunk, cs);
    SvnBlockScan(p, rule, ta, tb, hunk, h, cs);
    SvnLineOf(p);
    assert block[0] == "Index: " + p;
    ScanProperties.SectionsIndependent(earlier, block);
  }

  /** The svn sample: two blocks give two records in order, each with its
      path on both sides and its chunk. */
  lemma SvnTwoBlocks(p: string, rule1: string, ta: string, tb: string, hunk1: string, h1: HunkHeader.HunkHead, cs1: seq<string>,
                     q: string, rule2: string, ua: string, ub: string, hunk2: string, h2: HunkHeader.HunkHead, cs2: seq<string>)
    requires PlainPath(p) && p != DevNull && IsRule(rule1) && Trailer(ta) && Trailer(tb)
    requires HunkOf(hunk1, h1) && HunkBody(cs1)
    requires PlainPath(q) && q != DevNull && IsRule(rule2) && Trailer(ua) && Trailer(ub)
    requires HunkOf(hunk2, h2) && HunkBody(cs2)
    ensures var fs := Run([""] + SvnBlock(p, rule1, ta, tb, hunk1, cs1) + SvnBlock(q, rule2, ua, ub, hunk2, cs2) + [""]).files;
      && |fs| == 2
      && fs[0] == EmptyFile.(from := Some(p), to := Some(p), chunks := fs[0].chunks)
      && |fs[0].chunks| == 1 && HunkChunk(fs[0].chunks[0], hunk1, h1, ChangeLinesOf(cs1))
      && fs[1] == EmptyFile.(from := Some(q), to := Some(q), chunks := fs[1].chunks)
      && |fs[1].chunks| == 1 && HunkChunk(fs[1].chunks[0], hunk2, h2, ChangeLinesOf(cs2))
  {
    var s1, s2 := SvnBlock(p, rule1, ta, tb, hunk1, cs1), SvnBlock(q, rule2, ua, ub, hunk2, cs2);
    SvnBlockScan(p, rule1, ta, tb, hunk1, h1, cs1);
    SvnBlockScan(q, rule2, ua, ub, hunk2, h2, cs2);
    SvnLineOf(q);
    assert s2[0] == "Index: " + q;
    TwoSections(s1, s2, Run(s1).files[0], Run(s2).files[0]);
  }

  // ---------------------------------------------------------------------------
  // Several records

  /** Two sections, each leaving one record, framed by empty lines, give
      both records in input order. */
  lemma TwoSections(s1: seq<string>, s2: seq<string>, f: File, g: File)
    requires |Run(s1).files| == 1 && Run(s1).files[0] == f
    requires |Run(s2).files| == 1 && Run(s2).files[0] == g
    requires s2 != [] && Starts(Classify(s2[0]))
    ensures Run([""] + s1 + s2 + [""]).files == [f, g]
  {
    assert Run(s1).files == [f] && Run(s2).files == [g];
    ScanProperties.SectionsIndependent(s1, s2);
    Framed(s1 + s2);
    Regroup([""], s1, s2, [""]);
  }

  /** A section that begins with a `diff --git` line starts a record. */
  lemma GitSectionStarts(p: string, lines: seq<string>)
    requires PlainPath(p) && lines != [] && lines[0] == GitLine(p)
    ensures Starts(Classify(lines[0]))
  {
    GitLineOf(p);
  }

  /** A git header for an ordinary change and its two-line hunk: one
      record with both paths and one chunk. */
  lemma PlainGitSection(p: string, index: string, hunk: string, h: HunkHeader.HunkHead, c1: string, c2: string)
    requires PlainPath(p) && p != DevNull && StartsWith(index, "index ")
    requires HunkOf(hunk, h) && DelLine(c1) && AddLine(c2)
    ensures var fs := Run(PlainGitHeader(p, index) + [hunk, c1, c2]).files;
      && |fs| == 1 && fs[0].from == Some(p) && fs[0].to == Some(p)
      && |fs[0].chunks| == 1 && TwoLineChunk(fs[0].chunks[0], hunk, h, c1, Del, c2, Add)
  {
    PlainGitHeaderScan(p, index);
    DelAddLines(c1, c2);
    RunTwoLineHunk(PlainGitHeader(p, index), EmptyFile.(from := Some(p), to := Some(p)), hunk, h, c1, Del, c2, Add);
  }

  /** Two files in one diff: two records, in the order of the input, each
      with its own paths and its own chunk, positions restarting at 1. */
  lemma MultipleFiles(p: string, i1: string, hunk1: string, h1: HunkHeader.HunkHead, c1: string, c2: string,
                      q: string, i2: string, hunk2: string, h2: HunkHeader.HunkHead, d1: string, d2: string)
    requires PlainPath(p) && p != DevNull && StartsWith(i1, "index ")
    requires HunkOf(hunk1, h1) && DelLine(c1) && AddLine(c2)
    requires PlainPath(q) && q != DevNull && StartsWith(i2, "index ")
    requires HunkOf(hunk2, h2) && DelLine(d1) && AddLine(d2)
    ensures var fs := Run([""] + (PlainGitHeader(p, i1) + [hunk1, c1, c2])
                               + (PlainGitHeader(q, i2) + [hunk2, d1, d2]) + [""]).files;
      && |fs| == 2
      && fs[0].from == Some(p) && fs[0].to == Some(p)
      && |fs[0].chunks| == 1 && TwoLineChunk(fs[0].chunks[0], hunk1, h1, c1, Del, c2, Add)
      && fs[1].from == Some(q) && fs[1].to == Some(q)
      && |fs[1].chunks| == 1 && TwoLineChunk(fs[1].chunks[0], hunk2, h2, d1, Del, d2, Add)
  {
    var s1 := PlainGitHeader(p, i1) + [hunk1, c1, c2];
    var s2 := PlainGitHeader(q, i2) + [hunk2, d1, d2];
    PlainGitSection(p, i1, hunk1, h1, c1, c2);
    PlainGitSection(q, i2, hunk2, h2, d1, d2);
    var f, g := Run(s1).files[0], Run(s2).files[0];
    GitSectionStarts(q, s2);
    TwoSections(s1, s2, f, g);
  }

  /** A record with the given flags and paths and one chunk, whose header
      line is `hunk` and whose only change is the line `c` of type `t` at
      position 1. */
  predicate OneLineRecord(f: File, from: string, to: string, isNew: bool, deleted: bool,
                          hunk: string, c: string, t: ChangeType) {
    && f == File(Some(from), Some(to), isNew, deleted, false, f.chunks)
    && |f.chunks| == 1 && f.chunks[0].content == hunk
    && |f.chunks[0].changes| == 1 && f.chunks[0].changes[0].content == c
    && f.chunks[0].changes[0].kind == t && f.chunks[0].changes[0].position == 1
  }

  /** A hunk with one change line after a header that left one record with
      no hunk: the record gains one chunk holding that line at position 1. */
  lemma OneLineHunk(header: seq<string>, f: File, hunk: string, h: HunkHeader.HunkHead, c: string, t: ChangeType)
    requires |Run(header).files| == 1 && Run(header).files[0] == f && f.chunks == []
    requires f.from.Some? && f.to.Some? && !f.renamed
    requires HunkOf(hunk, h) && Classify(c) == Content(t)
    ensures var fs := Run(header + [hunk, c]).files;
      && |fs| == 1 && OneLineRecord(fs[0], f.from.value, f.to.value, f.isNew, f.deleted, hunk, c, t)
  {
    var ch := OneLineChunk(header, f, hunk, h, c, t);
    assert header + ([hunk] + [c]) == header + [hunk, c];
  }

  /** The chunk such a hunk gives. */
  lemma OneLineChunk(header: seq<string>, f: File, hunk: string, h: HunkHeader.HunkHead, c: string, t: ChangeType)
    returns (ch: Chunk)
    requires |Run(header).files| == 1 && Run(header).files[0] == f && f.chunks == []
    requires HunkOf(hunk, h) && Classify(c) == Content(t)
    ensures Run(header + ([hunk] + [c])).files == [f.(chunks := [ch])]
    ensures ch.content == hunk && ch.oldStart == h.oldStart && ch.oldLines == h.oldLines
    ensures ch.newStart == h.newStart && ch.newLines == h.newLines
    ensures |ch.changes| == 1 && ch.changes[0].content == c && ch.changes[0].kind == t && ch.changes[0].position == 1
  {
    assert HunkBody([c]);
    assert ChangeLinesOf([c]) == [c] by { assert [c][..0] == []; }
    ch := OneRecordHunk(header, f, hunk, h, [c]);
    ChangesAreAt(ch.changes, [c], 0);
  }

  /** A deleted one-line file whose old path is written with `b/`. */
  lemma DeletedOneLine(p: string, m: string, i: string, hunk: string, h: HunkHeader.HunkHead, c: string)
    requires PlainPath(p) && p != DevNull && StartsWith(m, "deleted file mode") && StartsWith(i, "index ")
    requires HunkOf(hunk, h) && DelLine(c)
    ensures var fs := Run(DeletedGitHeader(p, m, i, "b/") + [hunk, c]).files;
      && |fs| == 1 && OneLineRecord(fs[0], p, DevNull, false, true, hunk, c, Del)
  {
    DeletedGitHeaderScan(p, m, i, "b/");
    DelLineKind(c);
    OneLineHunk(DeletedGitHeader(p, m, i, "b/"), File(Some(p), Some(DevNull), false, true, false, []), hunk, h, c, Del);
  }

  /** A new one-line file. */
  lemma NewOneLine(q: string, m: string, i: string, hunk: string, h: HunkHeader.HunkHead, c: string)
    requires PlainPath(q) && q != DevNull && StartsWith(m, "new file mode") && StartsWith(i, "index ")
    requires HunkOf(hunk, h) && AddLine(c)
    ensures var fs := Run(NewGitHeader(q, m, i) + [hunk, c]).files;
      && |fs| == 1 && OneLineRecord(fs[0], DevNull, q, true, false, hunk, c, Add)
  {
    NewGitHeaderScan(q, m, i);
    AddLineKind(c);
    OneLineHunk(NewGitHeader(q, m, i), File(Some(DevNull), Some(q), true, false, false, []), hunk, h, c, Add);
  }

  /** Single-line files: deleting a one-line file (its old path written
      with `b/`) and adding another give a deleted and a new record, each
      with one chunk holding its one line at position 1. */
  lemma SingleLineFiles(p: string, m1: string, i1: string, hunk1: string, h1: HunkHeader.HunkHead, c1: string,
                        q: string, m2: string, i2: string, hunk2: string, h2: HunkHeader.HunkHead, c2: string)
    requires PlainPath(p) && p != DevNull && StartsWith(m1, "deleted file mode") && StartsWith(i1, "index ")
    requires HunkOf(hunk1, h1) && DelLine(c1)
    requires PlainPath(q) && q != DevNull && StartsWith(m2, "new file mode") && StartsWith(i2, "index ")
    requires HunkOf(hunk2, h2) && AddLine(c2)
    ensures var fs := Run([""] + (DeletedGitHeader(p, m1, i1, "b/") + [hunk1, c1])
                               + (NewGitHeader(q, m2, i2) + [hunk2, c2]) + [""]).files;
      && |fs| == 2
      && OneLineRecord(fs[0], p, DevNull, false, true, hunk1, c1, Del)
      && OneLineRecord(fs[1], DevNull, q, true, false, hunk2, c2, Add)
  {
    var s1 := DeletedGitHeader(p, m1, i1, "b/") + [hunk1, c1];
    var s2 := NewGitHeader(q, m2, i2) + [hunk2, c2];
    DeletedOneLine(p, m1, i1, hunk1, h1, c1);
    NewOneLine(q, m2, i2, hunk2, h2, c2);
    GitSectionStarts(q, s2);
    TwoSections(s1, s2, Run(s1).files[0], Run(s2).files[0]);
  }

  // ---------------------------------------------------------------------------
  // Renames

  /** The lines a two-line chunk of one type contributes to the rename
      comparison: both changes without their marker. */
  lemma TwoLinePayload(chunks: seq<Chunk>, hunk: string, h: HunkHeader.HunkHead, c1: string, c2: string, t: ChangeType)
    requires |chunks| == 1 && TwoLineChunk(chunks[0], hunk, h, c1, t, c2, t) && |c1| > 0 && |c2| > 0
    ensures Renames.Payload(chunks, t) == [c1[1..], c2[1..]]
  {
    var ch := chunks[0];
    assert chunks[..0] == [];
    assert ch.changes[..1][..0] == [];
    assert Renames.LinesOf(ch.changes[..1], t) == [c1[1..]];
  }

  /** A new file's section with a two-line hunk of additions. */
  lemma NewSection(p: string, mode: string, index: string, hunk: string, h: HunkHeader.HunkHead, c1: string, c2: string)
    requires PlainPath(p) && p != DevNull && StartsWith(mode, "new file mode") && StartsWith(index, "index ")
    requires HunkOf(hunk, h) && AddLine(c1) && AddLine(c2)
    ensures var fs := Run(NewGitHeader(p, mode, index) + [hunk, c1, c2]).files;
      && |fs| == 1 && fs[0].isNew && !fs[0].deleted && fs[0].to == Some(p)
      && Renames.Payload(fs[0].chunks, Add) == [c1[1..], c2[1..]]
  {
    NewGitHeaderScan(p, mode, index);
    AddLineKind(c1);
    AddLineKind(c2);
    RunTwoLineHunk(NewGitHeader(p, mode, index), File(Some(DevNull), Some(p), true, false, false, []),
                   hunk, h, c1, Add, c2, Add);
    var f := Run(NewGitHeader(p, mode, index) + [hunk, c1, c2]).files[0];
    TwoLinePayload(f.chunks, hunk, h, c1, c2, Add);
  }

  /** A deleted file's section with a two-line hunk of deletions. */
  lemma DeletedSection(p: string, mode: string, index: string, hunk: string, h: HunkHeader.HunkHead, c1: string, c2: string)
    requires PlainPath(p) && p != DevNull && StartsWith(mode, "deleted file mode") && StartsWith(index, "index ")
    requires HunkOf(hunk, h) && DelLine(c1) && DelLine(c2)
    ensures var fs := Run(DeletedGitHeader(p, mode, index, "a/") + [hunk, c1, c2]).files;
      && |fs| == 1 && fs[0].deleted && fs[0].from == Some(p)
      && Renames.Payload(fs[0].chunks, Del) == [c1[1..], c2[1..]]
  {
    DeletedGitHeaderScan(p, mode, index, "a/");
    DelLineKind(c1);
    DelLineKind(c2);
    RunTwoLineHunk(DeletedGitHeader(p, mode, index, "a/"), File(Some(p), Some(DevNull), false, true, false, []),
                   hunk, h, c1, Del, c2, Del);
    var f := Run(DeletedGitHeader(p, mode, index, "a/") + [hunk, c1, c2]).files[0];
    TwoLinePayload(f.chunks, hunk, h, c1, c2, Del);
  }

  /** The sections of a new file and of a deleted file, one after the other. */
  function NewThenDeletedLines(bar: string, mode: string, idx: string, hunkA: string, a1: string, a2: string,
                               foo: string, dmode: string, didx: string, hunkD: string, d1: string, d2: string): seq<string> {
    [""] + (NewGitHeader(bar, mode, idx) + [hunkA, a1, a2])
         + (DeletedGitHeader(foo, dmode, didx, "a/") + [hunkD, d1, d2]) + [""]
  }

  /** A new file whose added lines are exactly the lines a deleted file
      removed: without the rename pass there are two records; with it,
      the single record renamed from the deleted path to the new path,
      with no chunks and no other flag. */
  lemma DetectsRename(bar: string, mode: string, idx: string, hunkA: string, hA: HunkHeader.HunkHead, a1: string, a2: string,
                      foo: string, dmode: string, didx: string, hunkD: string, hD: HunkHeader.HunkHead, d1: string, d2: string)
    requires PlainPath(bar) && bar != DevNull && StartsWith(mode, "new file mode") && StartsWith(idx, "index ")
    requires HunkOf(hunkA, hA) && AddLine(a1) && AddLine(a2)
    requires PlainPath(foo) && foo != DevNull && StartsWith(dmode, "deleted file mode") && StartsWith(didx, "index ")
    requires HunkOf(hunkD, hD) && DelLine(d1) && DelLine(d2)
    requires a1[1..] == d1[1..] && a2[1..] == d2[1..]
    ensures var fs := Run(NewThenDeletedLines(bar, mode, idx, hunkA, a1, a2, foo, dmode, didx, hunkD, d1, d2)).files;
      && |fs| == 2 && fs[0].isNew && fs[1].deleted
      && Renames.FindRenames(fs) == [File(Some(foo), Some(bar), false, false, true, [])]
  {
    var s1 := NewGitHeader(bar, mode, idx) + [hunkA, a1, a2];
    var s2 := DeletedGitHeader(foo, dmode, didx, "a/") + [hunkD, d1, d2];
    NewSection(bar, mode, idx, hunkA, hA, a1, a2);
    DeletedSection(foo, dmode, didx, hunkD, hD, d1, d2);
    var f, g := Run(s1).files[0], Run(s2).files[0];
    GitSectionStarts(foo, s2);
    TwoSections(s1, s2, f, g);
    SameLinesRename(f, g, bar, foo, [a1[1..], a2[1..]]);
  }

  /** A new record and a deleted one that carry the same lines are one
      rename from the deleted path to the new path. */
  lemma SameLinesRename(f: File, g: File, bar: string, foo: string, payload: seq<string>)
    requires f.isNew && !f.deleted && f.to == Some(bar) && Renames.Payload(f.chunks, Add) == payload
    requires g.deleted && g.from == Some(foo) && Renames.Payload(g.chunks, Del) == payload
    ensures Renames.FindRenames([f, g]) == [File(Some(foo), Some(bar), false, false, true, [])]
  {
    Renames.NewThenDeleted(f, g);
  }

  /** No line holds a newline. */
  predicate OneLineEach(lines: seq<string>) {
    forall i :: 0 <= i < |lines| ==> '\n' !in lines[i]
  }

  lemma OneLineJoin(a: seq<string>, b: seq<string>)
    requires OneLineEach(a) && OneLineEach(b)
    ensures OneLineEach(a + b)
  {
    forall i | 0 <= i < |a + b| ensures '\n' !in (a + b)[i] {
      if i < |a| { assert (a + b)[i] == a[i]; } else { assert (a + b)[i] == b[i - |a|]; }
    }
  }

  lemma NewSectionLines(p: string, mode: string, index: string, hunk: string, c1: string, c2: string)
    requires '\n' !in p && '\n' !in mode && '\n' !in index
    requires '\n' !in hunk && '\n' !in c1 && '\n' !in c2
    ensures OneLineEach(NewGitHeader(p, mode, index) + [hunk, c1, c2])
  {
    assert '\n' !in GitLine(p);
    assert '\n' !in "+++ b/" + p;
  }

  lemma DeletedSectionLines(p: string, mode: string, index: string, hunk: string, c1: string, c2: string)
    requires '\n' !in p && '\n' !in mode && '\n' !in index
    requires '\n' !in hunk && '\n' !in c1 && '\n' !in c2
    ensures OneLineEach(DeletedGitHeader(p, mode, index, "a/") + [hunk, c1, c2])
  {
    assert '\n' !in GitLine(p);
    assert '\n' !in "--- " + "a/" + p;
  }

  /** The two-section text is made of whole lines and is not blank. */
  lemma RenameTextLines(bar: string, mode: string, idx: string, hunkA: string, a1: string, a2: string,
                        foo: string, dmode: string, didx: string, hunkD: string, d1: string, d2: string)
    requires '\n' !in bar && '\n' !in mode && '\n' !in idx && '\n' !in hunkA && '\n' !in a1 && '\n' !in a2
    requires '\n' !in foo && '\n' !in dmode && '\n' !in didx && '\n' !in hunkD && '\n' !in d1 && '\n' !in d2
    ensures var lines := NewThenDeletedLines(bar, mode, idx, hunkA, a1, a2, foo, dmode, didx, hunkD, d1, d2);
      |lines| >= 1 && OneLineEach(lines) && !IsBlank(JoinLines(lines))
  {
    var lines := NewThenDeletedLines(bar, mode, idx, hunkA, a1, a2, foo, dmode, didx, hunkD, d1, d2);
    NewSectionLines(bar, mode, idx, hunkA, a1, a2);
    DeletedSectionLines(foo, dmode, didx, hunkD, d1, d2);
    OneLineJoin([""], NewGitHeader(bar, mode, idx) + [hunkA, a1, a2]);
    OneLineJoin([""] + (NewGitHeader(bar, mode, idx) + [hunkA, a1, a2]), DeletedGitHeader(foo, dmode, didx, "a/") + [hunkD, d1, d2]);
    OneLineJoin([""] + (NewGitHeader(bar, mode, idx) + [hunkA, a1, a2]) + (DeletedGitHeader(foo, dmode, didx, "a/") + [hunkD, d1, d2]), [""]);
    assert lines[1] == GitLine(bar);
    DiffParser.FramedNotBlank(lines);
  }

  /** The rename test through the entry point: the text made of the two
      sections, parsed with `findRenames` set, is the one renamed record;
      parsed without it, the new and the deleted record. */
  lemma RenameParsed(bar: string, mode: string, idx: string, hunkA: string, hA: HunkHeader.HunkHead, a1: string, a2: string,
                     foo: string, dmode: string, didx: string, hunkD: string, hD: HunkHeader.HunkHead, d1: string, d2: string)
    requires PlainPath(bar) && bar != DevNull && StartsWith(mode, "new file mode") && StartsWith(idx, "index ")
    requires HunkOf(hunkA, hA) && AddLine(a1) && AddLine(a2)
    requires PlainPath(foo) && foo != DevNull && StartsWith(dmode, "deleted file mode") && StartsWith(didx, "index ")
    requires HunkOf(hunkD, hD) && DelLine(d1) && DelLine(d2)
    requires a1[1..] == d1[1..] && a2[1..] == d2[1..]
    requires '\n' !in bar && '\n' !in mode && '\n' !in idx && '\n' !in hunkA && '\n' !in a1 && '\n' !in a2
    requires '\n' !in foo && '\n' !in dmode && '\n' !in didx && '\n' !in hunkD && '\n' !in d1 && '\n' !in d2
    ensures var text := Some(JoinLines(NewThenDeletedLines(bar, mode, idx, hunkA, a1, a2, foo, dmode, didx, hunkD, d1, d2)));
      && DiffParser.ParseText(text, true) == [File(Some(foo), Some(bar), false, false, true, [])]
      && |DiffParser.ParseText(text, false)| == 2
  {
    var lines := NewThenDeletedLines(bar, mode, idx, hunkA, a1, a2, foo, dmode, didx, hunkD, d1, d2);
    RenameTextLines(bar, mode, idx, hunkA, a1, a2, foo, dmode, didx, hunkD, d1, d2);
    DetectsRename(bar, mode, idx, hunkA, hA, a1, a2, foo, dmode, didx, hunkD, hD, d1, d2);
    DiffParser.ParseLines(lines, true);
    DiffParser.ParseLines(lines, false);
  }
}
