/** The scan on the shapes of diff text that git, GNU diff, hg and svn
    write: which records the header lines give, and how a hunk's lines
    become its changes. */
module Scenarios {
  import opened Wrappers
  import opened Text
  import opened DiffTypes
  import opened LineClassifier
  import opened Scanner
  import Headers
  import HunkHeader
  import ScanProperties

  // ---------------------------------------------------------------------------
  // Line shapes

  /** A path as the header lines spell it: one word that does not itself
      start with a git prefix. */
  predicate PlainPath(p: string) {
    p != [] && NoSpace(p) && !StartsWith(p, "a/") && !StartsWith(p, "b/")
  }

  /** What may follow the path on a `---`/`+++` line: nothing, or a
      whitespace-separated date or revision note. */
  predicate Trailer(t: string) {
    t == [] || IsSpace(t[0])
  }

  function GitLine(p: string): string {
    "diff --git a/" + p + " b/" + p
  }

  lemma GitLineOf(p: string)
    requires PlainPath(p)
    ensures Classify(GitLine(p)) == GitStart
    ensures GitRecord(GitLine(p)) == EmptyFile.(from := Some(p), to := Some(p))
  {
    var line := GitLine(p);
    assert line[..11] == "diff --git ";
    assert line[11..] == "a/" + p + " b/" + p;
    Headers.GitPathsOf(p, p);
  }

  lemma HgLineOf(revs: string)
    ensures Classify("diff -r " + revs) == HgStart
  {
    var line := "diff -r " + revs;
    assert line[6] == 'r';
    assert line[..8] == "diff -r ";
  }

  lemma SvnLineOf(p: string)
    requires NoSpace(p)
    ensures Classify("Index: " + p) == SvnIndex
    ensures SvnRecord("Index: " + p) == EmptyFile.(from := Some(p), to := Some(p))
  {
    var line := "Index: " + p;
    assert line[..7] == "Index: ";
    ClassifyByMarker(line);
    assert line[7..] == p + [];
    TokenOf(p, []);
  }

  /** The `=====` rule under an svn `Index:` line is skipped. */
  lemma RuleLine(line: string)
    requires |line| > 0 && forall i :: 0 <= i < |line| ==> line[i] == '='
    ensures Classify(line) == Other
  {
    FirstChar(line);
  }

  lemma NewModeLine(line: string)
    requires StartsWith(line, "new file mode")
    ensures Classify(line) == NewFileMode
  {
    assert line[0] == 'n';
  }

  lemma DeletedModeLine(line: string)
    requires StartsWith(line, "deleted file mode")
    ensures Classify(line) == DeletedFileMode
  {
    assert line[0] == 'd' && line[1] == 'e';
  }

  lemma IndexLineOf(line: string)
    requires StartsWith(line, "index ")
    ensures Classify(line) == IndexLine
  {
    assert line[0] == 'i' && line[1] == 'n';
  }

  lemma HunkLineOf(line: string)
    requires StartsWith(line, "@@")
    ensures Classify(line) == HunkStart
  {
    assert line[0] == '@';
  }

  lemma OldMarker(line: string)
    requires StartsWith(line, "--- ")
    ensures Classify(line) == OldPath
  {
    assert line[0] == '-';
  }

  lemma NewMarker(line: string)
    requires StartsWith(line, "+++ ")
    ensures Classify(line) == NewPath
  {
    assert line[0] == '+';
  }

  /** The path on a `---`/`+++` line: what follows the marker, without its
      prefix and trailer. */
  lemma MarkerLine(marker: string, prefix: string, q: string, tail: string)
    requires |marker| == 4
    requires prefix == "a/" || prefix == "b/" || prefix == ""
    requires PlainPath(q) && Trailer(tail)
    ensures Headers.MarkerPath((marker + prefix + q + tail)[4..]) == q
  {
    assert (marker + prefix + q + tail)[4..] == prefix + q + tail;
    Headers.MarkerPathOf(prefix, q, tail);
  }

  /** `--- ` followed by an optionally prefixed path and a trailer. */
  lemma OldPathLine(prefix: string, q: string, tail: string)
    requires prefix == "a/" || prefix == "b/" || prefix == ""
    requires PlainPath(q) && Trailer(tail)
    ensures Classify("--- " + prefix + q + tail) == OldPath
    ensures Headers.MarkerPath(("--- " + prefix + q + tail)[4..]) == q
  {
    assert ("--- " + prefix + q + tail)[..4] == "--- ";
    OldMarker("--- " + prefix + q + tail);
    MarkerLine("--- ", prefix, q, tail);
  }

  /** `+++ ` followed by an optionally prefixed path and a trailer. */
  lemma NewPathLine(prefix: string, q: string, tail: string)
    requires prefix == "a/" || prefix == "b/" || prefix == ""
    requires PlainPath(q) && Trailer(tail)
    ensures Classify("+++ " + prefix + q + tail) == NewPath
    ensures Headers.MarkerPath(("+++ " + prefix + q + tail)[4..]) == q
  {
    assert ("+++ " + prefix + q + tail)[..4] == "+++ ";
    NewMarker("+++ " + prefix + q + tail);
    MarkerLine("+++ ", prefix, q, tail);
  }

  /** `--- a/P` or `--- b/P` as git writes it. */
  lemma OldGitPath(prefix: string, p: string)
    requires prefix == "a/" || prefix == "b/"
    requires PlainPath(p)
    ensures Classify("--- " + prefix + p) == OldPath
    ensures Headers.MarkerPath(("--- " + prefix + p)[4..]) == p
  {
    assert "--- " + prefix + p + [] == "--- " + prefix + p by {
      assert (prefix + p) + [] == prefix + p;
    }
    OldPathLine(prefix, p, []);
  }

  lemma NewGitPath(p: string)
    requires PlainPath(p)
    ensures Classify("+++ b/" + p) == NewPath
    ensures Headers.MarkerPath(("+++ b/" + p)[4..]) == p
  {
    assert "+++ " + "b/" + p + [] == "+++ b/" + p by {
      assert "+++ " + "b/" == "+++ b/";
    }
    NewPathLine("b/", p, []);
  }

  lemma OldDevNull()
    ensures Classify("--- /dev/null") == OldPath
    ensures Headers.MarkerPath("--- /dev/null"[4..]) == DevNull
  {
    var line := "--- /dev/null";
    assert line[..4] == "--- ";
    OldMarker(line);
    assert line[4..] == DevNull + [];
    Headers.DevNullPath([]);
  }

  lemma NewDevNull()
    ensures Classify("+++ /dev/null") == NewPath
    ensures Headers.MarkerPath("+++ /dev/null"[4..]) == DevNull
  {
    var line := "+++ /dev/null";
    assert line[..4] == "+++ ";
    NewMarker(line);
    assert line[4..] == DevNull + [];
    Headers.DevNullPath([]);
  }

  // ---------------------------------------------------------------------------
  // Single steps

  lemma RunSnoc(lines: seq<string>, line: string)
    ensures Run(lines + [line]) == Step(Run(lines), line)
  {
    assert (lines + [line])[..|lines|] == lines;
  }

  /** A text of one line is one step from the initial state. */
  lemma RunOne(line: string)
    ensures Run([line]) == Step(Initial, line)
  {
    assert [line] == [] + [line];
    RunSnoc([], line);
  }

  /** Three more lines are three more steps. */
  lemma RunSteps(lines: seq<string>, a: string, b: string, c: string)
    ensures Run(lines + [a, b, c]) == Step(Step(Step(Run(lines), a), b), c)
  {
    assert lines + [a, b, c] == lines + [a] + [b] + [c];
    RunSnoc(lines, a);
    RunSnoc(lines + [a], b);
    RunSnoc(lines + [a] + [b], c);
  }

  lemma SkipEmpty(s: ScanState)
    ensures Step(s, "") == s
  {
  }

  /** A filling header line while the current record has no hunk yet
      updates that record in place. */
  lemma StepFill(s: ScanState, line: string)
    requires Opens(Classify(line)) && !Starts(Classify(line))
    requires s.files != [] && Last(s.files).chunks == []
    ensures Step(s, line) == s.(files := s.files[|s.files| - 1 := Fill(Last(s.files), line)])
  {
    assert Reopen(s.files) == s.files;
  }

  /** Scanning past a skipped line changes nothing. */
  lemma RunSkip(lines: seq<string>, line: string)
    requires Classify(line) == Other
    ensures Run(lines + [line]) == Run(lines)
  {
    RunSnoc(lines, line);
  }

  /** A text that starts with an empty line scans like the text without it
      (the diffs in the tests start with a newline). */
  lemma {:induction false} EmptyFirst(lines: seq<string>)
    ensures Run([""] + lines) == Run(lines)
    decreases |lines|
  {
    if lines == [] {
      assert [""] + lines == [] + [""];
      RunSnoc([], "");
    } else {
      var init, line := lines[..|lines| - 1], Last(lines);
      assert [""] + lines == ([""] + init) + [line] && lines == init + [line] by {
        assert lines == init + [line];
      }
      EmptyFirst(init);
      RunSnoc([""] + init, line);
      RunSnoc(init, line);
    }
  }

  /** A filling header line on a lone record with no hunk yet. */
  lemma RunFill(lines: seq<string>, line: string, f: File, g: File)
    requires Run(lines) == Initial.(files := [f]) && f.chunks == []
    requires Opens(Classify(line)) && !Starts(Classify(line)) && Fill(f, line) == g
    ensures Run(lines + [line]) == Initial.(files := [g])
  {
    RunSnoc(lines, line);
    StepFill(Run(lines), line);
  }

  /** A filling header line as the first line opens a record of its own. */
  lemma RunOpen(line: string, g: File)
    requires Opens(Classify(line)) && !Starts(Classify(line)) && Fill(EmptyFile, line) == g
    ensures Run([line]) == Initial.(files := [g])
  {
    RunOne(line);
  }

  /** A `---` line sets the old path of the record it fills. */
  lemma FillOld(f: File, line: string, q: string)
    requires Classify(line) == OldPath && Headers.MarkerPath(line[4..]) == q
    ensures Fill(f, line) == f.(from := Some(q), isNew := f.isNew || q == DevNull)
  {
  }

  /** A `+++` line sets the new path of the record it fills. */
  lemma FillNew(f: File, line: string, q: string)
    requires Classify(line) == NewPath && Headers.MarkerPath(line[4..]) == q
    ensures Fill(f, line) == f.(to := Some(q), deleted := f.deleted || q == DevNull)
  {
  }

  // ---------------------------------------------------------------------------
  // Headers of the four dialects

  /** `diff --git`, `index`, `--- a/P`, `+++ b/P`. */
  function PlainGitHeader(p: string, index: string): seq<string> {
    [GitLine(p), index, "--- " + "a/" + p, "+++ b/" + p]
  }

  /** `diff --git`, `new file mode`, `index`, `--- /dev/null`, `+++ b/P`. */
  function NewGitHeader(p: string, mode: string, index: string): seq<string> {
    [GitLine(p), mode, index, "--- /dev/null", "+++ b/" + p]
  }

  /** `diff --git`, `deleted file mode`, `index`, `--- a/P` (or `b/P`),
      `+++ /dev/null`. */
  function DeletedGitHeader(p: string, mode: string, index: string, prefix: string): seq<string> {
    [GitLine(p), mode, index, "--- " + prefix + p, "+++ /dev/null"]
  }

  /** GNU diff: `--- A<ws>DATE`, `+++ B<ws>DATE`. */
  function GnuHeader(a: string, ta: string, b: string, tb: string): seq<string> {
    ["--- " + a + ta, "+++ " + b + tb]
  }

  /** hg: `diff -r REV ...`, `--- a/A<tab>DATE`, `+++ b/B<tab>DATE`. */
  function HgHeader(revs: string, a: string, ta: string, b: string, tb: string): seq<string> {
    ["diff -r " + revs, "--- a/" + a + ta, "+++ b/" + b + tb]
  }

  /** svn: `Index: P`, a rule of `=`, `--- P<tab>(revision N)`,
      `+++ P<tab>(working copy)`. */
  function SvnHeader(p: string, rule: string, ta: string, tb: string): seq<string> {
    ["Index: " + p, rule, "--- " + p + ta, "+++ " + p + tb]
  }

  predicate IsRule(rule: string) {
    |rule| > 0 && forall i :: 0 <= i < |rule| ==> rule[i] == '='
  }

  /** Two filling header lines on a lone record with no hunk yet. */
  lemma RunFillTwo(lines: seq<string>, l1: string, l2: string, f: File, g: File, h: File)
    requires Run(lines) == Initial.(files := [f]) && f.chunks == []
    requires Opens(Classify(l1)) && !Starts(Classify(l1)) && Fill(f, l1) == g
    requires Opens(Classify(l2)) && !Starts(Classify(l2)) && Fill(g, l2) == h
    ensures Run(lines + [l1, l2]) == Initial.(files := [h])
  {
    RunFill(lines, l1, f, g);
    RunFill(lines + [l1], l2, g, h);
    assert lines + [l1] + [l2] == lines + [l1, l2];
  }

  /** A `diff --git` line and the two lines after it. */
  lemma GitStartThree(p: string, l1: string, l2: string, g: File, h: File)
    requires PlainPath(p)
    requires Opens(Classify(l1)) && !Starts(Classify(l1))
    requires Fill(EmptyFile.(from := Some(p), to := Some(p)), l1) == g
    requires Opens(Classify(l2)) && !Starts(Classify(l2)) && Fill(g, l2) == h
    ensures Run([GitLine(p), l1, l2]) == Initial.(files := [h])
  {
    var line := GitLine(p);
    GitStartRun(p);
    RunFillTwo([line], l1, l2, EmptyFile.(from := Some(p), to := Some(p)), g, h);
    assert [line] + [l1, l2] == [line, l1, l2];
  }

  lemma GitStartRun(p: string)
    requires PlainPath(p)
    ensures Run([GitLine(p)]) == Initial.(files := [EmptyFile.(from := Some(p), to := Some(p))])
  {
    var line := GitLine(p);
    GitLineOf(p);
    RunOne(line);
  }

  lemma NewModeStart(p: string, mode: string, index: string)
    requires PlainPath(p)
    requires StartsWith(mode, "new file mode") && StartsWith(index, "index ")
    ensures Run([GitLine(p), mode, index]) == Initial.(files := [File(Some(DevNull), Some(p), true, false, false, [])])
  {
    NewModeLine(mode);
    IndexLineOf(index);
    var f := File(Some(DevNull), Some(p), true, false, false, []);
    GitStartThree(p, mode, index, f, f);
  }

  lemma DeletedModeStart(p: string, mode: string, index: string)
    requires PlainPath(p)
    requires StartsWith(mode, "deleted file mode") && StartsWith(index, "index ")
    ensures Run([GitLine(p), mode, index]) == Initial.(files := [File(Some(p), Some(DevNull), false, true, false, [])])
  {
    DeletedModeLine(mode);
    IndexLineOf(index);
    var f := File(Some(p), Some(DevNull), false, true, false, []);
    GitStartThree(p, mode, index, f, f);
  }

  /** Both paths come from the `diff --git` line, repeated by the marker
      lines without their prefixes. */
  lemma PlainGitHeaderScan(p: string, index: string)
    requires PlainPath(p) && p != DevNull && StartsWith(index, "index ")
    ensures Run(PlainGitHeader(p, index)) == Initial.(files := [EmptyFile.(from := Some(p), to := Some(p))])
  {
    var f := EmptyFile.(from := Some(p), to := Some(p));
    var g, o, n := GitLine(p), "--- " + "a/" + p, "+++ b/" + p;
    IndexLineOf(index);
    OldGitPath("a/", p);
    FillOld(f, o, p);
    GitStartThree(p, index, o, f, f);
    NewGitPath(p);
    FillNew(f, n, p);
    RunFill([g, index, o], n, f, f);
    assert [g, index, o] + [n] == PlainGitHeader(p, index) by {
      assert [g, index, o] + [n] == [g, index, o, n];
    }
  }

  /** `new file mode` marks the record new with the sentinel as its old
      path, and the marker lines agree. */
  lemma NewGitHeaderScan(p: string, mode: string, index: string)
    requires PlainPath(p) && p != DevNull
    requires StartsWith(mode, "new file mode") && StartsWith(index, "index ")
    ensures Run(NewGitHeader(p, mode, index)) == Initial.(files := [File(Some(DevNull), Some(p), true, false, false, [])])
  {
    NewMarkers(p, mode, index);
    assert [GitLine(p), mode, index] + ["--- /dev/null", "+++ b/" + p] == NewGitHeader(p, mode, index);
  }

  lemma NewMarkers(p: string, mode: string, index: string)
    requires PlainPath(p) && p != DevNull
    requires StartsWith(mode, "new file mode") && StartsWith(index, "index ")
    ensures Run([GitLine(p), mode, index] + ["--- /dev/null", "+++ b/" + p]) ==
      Initial.(files := [File(Some(DevNull), Some(p), true, false, false, [])])
  {
    var f := File(Some(DevNull), Some(p), true, false, false, []);
    var o, n := "--- /dev/null", "+++ b/" + p;
    NewModeStart(p, mode, index);
    OldDevNull();
    FillOld(f, o, DevNull);
    assert Fill(f, o) == f;
    NewGitPath(p);
    FillNew(f, n, p);
    assert Fill(f, n) == f;
    RunFillTwo([GitLine(p), mode, index], o, n, f, f, f);
  }

  /** `deleted file mode` marks the record deleted with the sentinel as its
      new path, and the marker lines agree. */
  lemma DeletedGitHeaderScan(p: string, mode: string, index: string, prefix: string)
    requires PlainPath(p) && p != DevNull && (prefix == "a/" || prefix == "b/")
    requires StartsWith(mode, "deleted file mode") && StartsWith(index, "index ")
    ensures Run(DeletedGitHeader(p, mode, index, prefix)) ==
      Initial.(files := [File(Some(p), Some(DevNull), false, true, false, [])])
  {
    var g, o, n := GitLine(p), "--- " + prefix + p, "+++ /dev/null";
    DeletedMarkers(p, mode, index, prefix);
    assert [g, mode, index] + [o, n] == DeletedGitHeader(p, mode, index, prefix);
  }

  lemma DeletedMarkers(p: string, mode: string, index: string, prefix: string)
    requires PlainPath(p) && p != DevNull && (prefix == "a/" || prefix == "b/")
    requires StartsWith(mode, "deleted file mode") && StartsWith(index, "index ")
    ensures Run([GitLine(p), mode, index] + ["--- " + prefix + p, "+++ /dev/null"]) ==
      Initial.(files := [File(Some(p), Some(DevNull), false, true, false, [])])
  {
    var f := File(Some(p), Some(DevNull), false, true, false, []);
    DeletedModeStart(p, mode, index);
    OldGitPath(prefix, p);
    FillOld(f, "--- " + prefix + p, p);
    NewDevNull();
    FillNew(f, "+++ /dev/null", DevNull);
    RunFillTwo([GitLine(p), mode, index], "--- " + prefix + p, "+++ /dev/null", f, f, f);
  }

  /** `--- A<trailer>` as GNU diff and svn write it. */
  lemma OldPlainPath(a: string, ta: string)
    requires PlainPath(a) && Trailer(ta)
    ensures Classify("--- " + a + ta) == OldPath
    ensures Headers.MarkerPath(("--- " + a + ta)[4..]) == a
  {
    assert "--- " + "" + a + ta == "--- " + a + ta by {
      assert "" + a == a;
    }
    OldPathLine("", a, ta);
  }

  lemma NewPlainPath(b: string, tb: string)
    requires PlainPath(b) && Trailer(tb)
    ensures Classify("+++ " + b + tb) == NewPath
    ensures Headers.MarkerPath(("+++ " + b + tb)[4..]) == b
  {
    assert "+++ " + "" + b + tb == "+++ " + b + tb by {
      assert "" + b == b;
    }
    NewPathLine("", b, tb);
  }

  /** `--- a/A<trailer>` as hg writes it. */
  lemma OldHgPath(a: string, ta: string)
    requires PlainPath(a) && Trailer(ta)
    ensures Classify("--- a/" + a + ta) == OldPath
    ensures Headers.MarkerPath(("--- a/" + a + ta)[4..]) == a
  {
    assert "--- " + "a/" + a + ta == "--- a/" + a + ta by {
      assert "--- " + "a/" == "--- a/";
    }
    OldPathLine("a/", a, ta);
  }

  lemma NewHgPath(b: string, tb: string)
    requires PlainPath(b) && Trailer(tb)
    ensures Classify("+++ b/" + b + tb) == NewPath
    ensures Headers.MarkerPath(("+++ b/" + b + tb)[4..]) == b
  {
    assert "+++ " + "b/" + b + tb == "+++ b/" + b + tb by {
      assert "+++ " + "b/" == "+++ b/";
    }
    NewPathLine("b/", b, tb);
  }

  /** GNU diff: each path ends at the first whitespace, so the date after
      it is dropped. */
  lemma GnuHeaderScan(a: string, ta: string, b: string, tb: string)
    requires PlainPath(a) && PlainPath(b) && a != DevNull && b != DevNull
    requires Trailer(ta) && Trailer(tb)
    ensures Run(GnuHeader(a, ta, b, tb)) == Initial.(files := [EmptyFile.(from := Some(a), to := Some(b))])
  {
    var o, n := "--- " + a + ta, "+++ " + b + tb;
    OldPlainPath(a, ta);
    NewPlainPath(b, tb);
    var f := EmptyFile.(from := Some(a));
    FillOld(EmptyFile, o, a);
    FillNew(f, n, b);
    RunOpen(o, f);
    RunFill([o], n, f, f.(to := Some(b)));
    assert [o] + [n] == GnuHeader(a, ta, b, tb);
  }

  /** hg: `diff -r` opens the record, and the marker lines give the paths
      without their `a/`/`b/` prefixes and without the tab-separated
      date. */
  lemma HgHeaderScan(revs: string, a: string, ta: string, b: string, tb: string)
    requires PlainPath(a) && PlainPath(b) && a != DevNull && b != DevNull
    requires Trailer(ta) && Trailer(tb)
    ensures Run(HgHeader(revs, a, ta, b, tb)) == Initial.(files := [EmptyFile.(from := Some(a), to := Some(b))])
  {
    var h, o, n := "diff -r " + revs, "--- a/" + a + ta, "+++ b/" + b + tb;
    HgStartRun(revs);
    OldHgPath(a, ta);
    FillOld(EmptyFile, o, a);
    NewHgPath(b, tb);
    var f := EmptyFile.(from := Some(a));
    FillNew(f, n, b);
    RunFillTwo([h], o, n, EmptyFile, f, f.(to := Some(b)));
    assert [h] + [o, n] == HgHeader(revs, a, ta, b, tb);
  }

  lemma HgStartRun(revs: string)
    ensures Run(["diff -r " + revs]) == Initial.(files := [EmptyFile])
  {
    var h := "diff -r " + revs;
    HgLineOf(revs);
    RunOne(h);
  }

  /** svn: `Index:` opens the record with its path on both sides, the rule
      line is skipped and the marker lines repeat the path before a
      tab-separated revision note. */
  lemma SvnHeaderScan(p: string, rule: string, ta: string, tb: string)
    requires PlainPath(p) && p != DevNull && IsRule(rule)
    requires Trailer(ta) && Trailer(tb)
    ensures Run(SvnHeader(p, rule, ta, tb)) == Initial.(files := [EmptyFile.(from := Some(p), to := Some(p))])
  {
    SvnMarkers(p, rule, ta, tb);
    assert ["Index: " + p, rule] + ["--- " + p + ta, "+++ " + p + tb] == SvnHeader(p, rule, ta, tb);
  }

  lemma SvnMarkers(p: string, rule: string, ta: string, tb: string)
    requires PlainPath(p) && p != DevNull && IsRule(rule)
    requires Trailer(ta) && Trailer(tb)
    ensures Run(["Index: " + p, rule] + ["--- " + p + ta, "+++ " + p + tb]) ==
      Initial.(files := [EmptyFile.(from := Some(p), to := Some(p))])
  {
    var o, n := "--- " + p + ta, "+++ " + p + tb;
    var f := EmptyFile.(from := Some(p), to := Some(p));
    SvnStart(p, rule);
    OldPlainPath(p, ta);
    NewPlainPath(p, tb);
    RunFillTwo(["Index: " + p, rule], o, n, f, f, f);
  }

  lemma SvnStart(p: string, rule: string)
    requires PlainPath(p) && IsRule(rule)
    ensures Run(["Index: " + p, rule]) == Initial.(files := [EmptyFile.(from := Some(p), to := Some(p))])
  {
    var i := "Index: " + p;
    SvnLineOf(p);
    RunOne(i);
    RuleLine(rule);
    RunSkip([i], rule);
    assert [i] + [rule] == [i, rule] by {
      assert [i] + [rule] == [i, rule];
    }
  }

  // ---------------------------------------------------------------------------
  // A hunk with two lines

  /** What the tests assert of a two-line chunk: its verbatim header, the
      numbers read from it, and each change's text, type and position. */
  predicate TwoLineChunk(ch: Chunk, hunk: string, h: HunkHeader.HunkHead,
                         c1: string, t1: ChangeType, c2: string, t2: ChangeType) {
    && ch.content == hunk
    && ch.oldStart == h.oldStart && ch.oldLines == h.oldLines
    && ch.newStart == h.newStart && ch.newLines == h.newLines
    && |ch.changes| == 2
    && ch.changes[0].content == c1 && ch.changes[0].kind == t1 && ch.changes[0].position == 1
    && ch.changes[1].content == c2 && ch.changes[1].kind == t2 && ch.changes[1].position == 2
  }

  /** The records are the given one with a single two-line chunk added. */
  predicate OneTwoLineRecord(r: seq<File>, f: File, hunk: string, h: HunkHeader.HunkHead,
                             c1: string, t1: ChangeType, c2: string, t2: ChangeType) {
    && |r| == 1 && |r[0].chunks| == 1
    && r[0] == f.(chunks := r[0].chunks)
    && TwoLineChunk(r[0].chunks[0], hunk, h, c1, t1, c2, t2)
  }

  lemma OpenFirstChunk(s: ScanState, f: File, hunk: string, h: HunkHeader.HunkHead)
    requires s.files == [f] && f.chunks == []
    requires StartsWith(hunk, "@@") && HunkHeader.Parse(hunk) == Some(h)
    ensures Step(s, hunk) ==
      ScanState([f.(chunks := [Chunk(hunk, h.oldStart, h.oldLines, h.newStart, h.newLines, [])])], 0, h.oldStart, h.newStart)
  {
    HunkLineOf(hunk);
    StepHunk(s, hunk);
    OpenOne(s, f, hunk, h);
  }

  lemma StepHunk(s: ScanState, line: string)
    requires Classify(line) == HunkStart
    ensures Step(s, line) == OpenChunk(s, line)
  {
  }

  lemma OpenOne(s: ScanState, f: File, line: string, h: HunkHeader.HunkHead)
    requires s.files == [f] && f.chunks == [] && HunkHeader.Parse(line) == Some(h)
    ensures OpenChunk(s, line) ==
      ScanState([f.(chunks := [Chunk(line, h.oldStart, h.oldLines, h.newStart, h.newLines, [])])], 0, h.oldStart, h.newStart)
  {
    var ch := Chunk(line, h.oldStart, h.oldLines, h.newStart, h.newLines, []);
    assert f.chunks + [ch] == [ch];
    assert [f][0 := f.(chunks := [ch])] == [f.(chunks := [ch])];
  }

  /** A change line on a lone record with one chunk appends to that chunk
      at the next position. */
  lemma RecordOne(s: ScanState, f: File, ch: Chunk, line: string, t: ChangeType)
    requires s.files == [f] && f.chunks == [ch]
    requires Classify(line) == Content(t)
    ensures var r := Step(s, line);
      && r.position == s.position + 1
      && |r.files| == 1 && |r.files[0].chunks| == 1
      && r.files == [f.(chunks := [r.files[0].chunks[0]])]
      && r.files[0].chunks[0] == ch.(changes := r.files[0].chunks[0].changes)
      && var cs := r.files[0].chunks[0].changes;
         |cs| == |ch.changes| + 1 && cs[..|ch.changes|] == ch.changes &&
         Last(cs).content == line && Last(cs).kind == t && Last(cs).position == s.position + 1
  {
    var c := Change(line, t, s.position + 1,
                    if t != Add then Some(s.oldLine) else None,
                    if t != Del then Some(s.newLine) else None);
    var ch' := ch.(changes := ch.changes + [c]);
    assert (ch.changes + [c])[..|ch.changes|] == ch.changes;
    assert Step(s, line) == Record(s, line, t);
    assert f.chunks[0 := ch'] == [ch'];
    assert [f][0 := f.(chunks := [ch'])] == [f.(chunks := [ch'])];
  }

  lemma StepTwoLineHunk(s: ScanState, f: File, hunk: string, h: HunkHeader.HunkHead,
                        c1: string, t1: ChangeType, c2: string, t2: ChangeType)
    requires s.files == [f] && f.chunks == []
    requires StartsWith(hunk, "@@") && HunkHeader.Parse(hunk) == Some(h)
    requires Classify(c1) == Content(t1) && Classify(c2) == Content(t2)
    ensures OneTwoLineRecord(Step(Step(Step(s, hunk), c1), c2).files, f, hunk, h, c1, t1, c2, t2)
  {
    var ch := Chunk(hunk, h.oldStart, h.oldLines, h.newStart, h.newLines, []);
    OpenFirstChunk(s, f, hunk, h);
    TwoChanges(Step(s, hunk), f, ch, c1, t1, c2, t2);
  }

  /** Two change lines on a freshly opened chunk. */
  lemma TwoChanges(s1: ScanState, f: File, ch: Chunk, c1: string, t1: ChangeType, c2: string, t2: ChangeType)
    requires s1.files == [f.(chunks := [ch])] && ch.changes == [] && s1.position == 0
    requires Classify(c1) == Content(t1) && Classify(c2) == Content(t2)
    ensures var r := Step(Step(s1, c1), c2).files;
      && |r| == 1 && |r[0].chunks| == 1
      && r[0] == f.(chunks := r[0].chunks)
      && var ch3 := r[0].chunks[0];
         && ch3 == ch.(changes := ch3.changes) && |ch3.changes| == 2
         && ch3.changes[0].content == c1 && ch3.changes[0].kind == t1 && ch3.changes[0].position == 1
         && ch3.changes[1].content == c2 && ch3.changes[1].kind == t2 && ch3.changes[1].position == 2
  {
    RecordOne(s1, f.(chunks := [ch]), ch, c1, t1);
    var s2 := Step(s1, c1);
    var ch2 := s2.files[0].chunks[0];
    assert s2.files == [f.(chunks := [ch2])];
    RecordOne(s2, f.(chunks := [ch2]), ch2, c2, t2);
    var ch3 := Step(s2, c2).files[0].chunks[0];
    assert ch3.changes[..2][..1] == ch2.changes;
  }

  lemma RunTwoLineHunk(lines: seq<string>, f: File, hunk: string, h: HunkHeader.HunkHead,
                       c1: string, t1: ChangeType, c2: string, t2: ChangeType)
    requires Run(lines).files == [f] && f.chunks == []
    requires StartsWith(hunk, "@@") && HunkHeader.Parse(hunk) == Some(h)
    requires Classify(c1) == Content(t1) && Classify(c2) == Content(t2)
    ensures OneTwoLineRecord(Run(lines + [hunk, c1, c2]).files, f, hunk, h, c1, t1, c2, t2)
  {
    RunSteps(lines, hunk, c1, c2);
    StepTwoLineHunk(Run(lines), f, hunk, h, c1, t1, c2, t2);
  }

  // ---------------------------------------------------------------------------
  // Hunks of any length

  /** The state after scanning the given lines from state `s`. */
  function Scan(s: ScanState, lines: seq<string>): ScanState
    decreases |lines|
  {
    if lines == [] then s else Step(Scan(s, lines[..|lines| - 1]), Last(lines))
  }

  /** Scanning a text in two parts is scanning the second part from where
      the first one left off. */
  lemma {:induction false} RunThenScan(a: seq<string>, b: seq<string>)
    ensures Run(a + b) == Scan(Run(a), b)
    decreases |b|
  {
    if b == [] {
      assert a + b == a;
    } else {
      var init := b[..|b| - 1];
      RunThenScan(a, init);
      ScanProperties.RunAppendLast(a, b);
    }
  }

  /** The lines under a hunk header: change lines, and lines the scan
      skips. */
  predicate HunkBody(cs: seq<string>) {
    forall i :: 0 <= i < |cs| ==> Classify(cs[i]).Content? || Classify(cs[i]) == Other
  }

  /** The change lines among the given lines, in order. */
  function ChangeLinesOf(cs: seq<string>): seq<string>
    decreases |cs|
  {
    if cs == [] then []
    else ChangeLinesOf(cs[..|cs| - 1]) + (if Classify(Last(cs)).Content? then [Last(cs)] else [])
  }

  /** The changes are the ones the change lines `cs` give: one per line,
      holding the line, at positions 1, 2, ..., with the type of the line's
      marker. */
  predicate ChangesAre(changes: seq<Change>, cs: seq<string>)
    decreases |cs|
  {
    && |changes| == |cs|
    && (cs == [] ||
         (&& ChangesAre(changes[..|cs| - 1], cs[..|cs| - 1])
          && Last(changes).content == Last(cs)
          && Last(changes).position == |cs|
          && Classify(Last(cs)) == Content(Last(changes).kind)))
  }

  /** The chunk a hunk header line and the change lines under it give. */
  predicate HunkChunk(ch: Chunk, hunk: string, h: HunkHeader.HunkHead, cs: seq<string>) {
    && ch.content == hunk
    && ch.oldStart == h.oldStart && ch.oldLines == h.oldLines
    && ch.newStart == h.newStart && ch.newLines == h.newLines
    && ChangesAre(ch.changes, cs)
  }

  /** The k-th change of such a chunk holds the k-th line, at position k + 1,
      with that line's type. */
  lemma {:induction false} ChangesAreAt(changes: seq<Change>, cs: seq<string>, k: nat)
    requires ChangesAre(changes, cs) && k < |cs|
    ensures changes[k].content == cs[k] && changes[k].position == k + 1
    ensures Classify(cs[k]) == Content(changes[k].kind)
    decreases |cs|
  {
    if k < |cs| - 1 {
      ChangesAreAt(changes[..|cs| - 1], cs[..|cs| - 1], k);
    }
  }

  lemma ChangesAreSnoc(changes: seq<Change>, cs: seq<string>, c: Change, line: string)
    requires ChangesAre(changes, cs)
    requires c.content == line && c.position == |cs| + 1 && Classify(line) == Content(c.kind)
    ensures ChangesAre(changes + [c], cs + [line])
  {
    assert (changes + [c])[..|cs|] == changes;
    assert (cs + [line])[..|cs|] == cs;
  }

  /** A hunk header followed by change and skipped lines, scanned while
      some record is current: that record gets one more chunk, holding the
      header line verbatim, its four numbers and one change per change line;
      no other record changes. */
  lemma {:induction false} ScanHunk(s: ScanState, hunk: string, h: HunkHeader.HunkHead, cs: seq<string>)
    returns (ch: Chunk)
    requires s.files != [] && StartsWith(hunk, "@@") && HunkHeader.Parse(hunk) == Some(h) && HunkBody(cs)
    ensures var f := Last(s.files);
      Scan(s, [hunk] + cs).files == s.files[|s.files| - 1 := f.(chunks := f.chunks + [ch])]
    ensures Scan(s, [hunk] + cs).position == |ChangeLinesOf(cs)|
    ensures HunkChunk(ch, hunk, h, ChangeLinesOf(cs))
    decreases |cs|
  {
    if cs == [] {
      assert [hunk] + cs == [hunk];
      ch := HunkHeaderOnto(s, hunk, h);
    } else {
      var init := cs[..|cs| - 1];
      HunkBodyInit(cs);
      var ch0 := ScanHunk(s, hunk, h, init);
      ch := HunkLineStep(s, hunk, h, cs, ch0);
    }
  }

  /** The hunk header line itself opens an empty chunk. */
  lemma HunkHeaderOnto(s: ScanState, hunk: string, h: HunkHeader.HunkHead) returns (ch: Chunk)
    requires s.files != [] && StartsWith(hunk, "@@") && HunkHeader.Parse(hunk) == Some(h)
    ensures var f := Last(s.files);
      Scan(s, [hunk]).files == s.files[|s.files| - 1 := f.(chunks := f.chunks + [ch])]
    ensures Scan(s, [hunk]).position == 0
    ensures HunkChunk(ch, hunk, h, [])
  {
    ch := Chunk(hunk, h.oldStart, h.oldLines, h.newStart, h.newLines, []);
    ScanSnoc(s, [], hunk);
    assert [] + [hunk] == [hunk];
    HunkLineOf(hunk);
    StepHunk(s, hunk);
  }

  lemma HunkBodyInit(cs: seq<string>)
    requires cs != [] && HunkBody(cs)
    ensures HunkBody(cs[..|cs| - 1])
    ensures Classify(Last(cs)).Content? || Classify(Last(cs)) == Other
  {
    var init := cs[..|cs| - 1];
    forall i | 0 <= i < |init| ensures Classify(init[i]).Content? || Classify(init[i]) == Other {
      assert init[i] == cs[i];
    }
  }

  lemma ScanHunkSnoc(s: ScanState, hunk: string, cs: seq<string>)
    requires cs != []
    ensures Scan(s, [hunk] + cs) == Step(Scan(s, [hunk] + cs[..|cs| - 1]), Last(cs))
  {
    var a := [hunk] + cs[..|cs| - 1];
    assert [hunk] + cs == a + [Last(cs)] by {
      assert cs == cs[..|cs| - 1] + [Last(cs)];
    }
    ScanSnoc(s, a, Last(cs));
  }

  lemma ScanSnoc(s: ScanState, lines: seq<string>, line: string)
    ensures Scan(s, lines + [line]) == Step(Scan(s, lines), line)
  {
    assert (lines + [line])[..|lines|] == lines;
  }

  /** The last line under a hunk header: a change line adds the next
      change, a skipped line nothing. */
  lemma HunkLineStep(s: ScanState, hunk: string, h: HunkHeader.HunkHead, cs: seq<string>, ch0: Chunk)
    returns (ch: Chunk)
    requires s.files != [] && cs != []
    requires Classify(Last(cs)).Content? || Classify(Last(cs)) == Other
    requires var f := Last(s.files);
      Scan(s, [hunk] + cs[..|cs| - 1]).files == s.files[|s.files| - 1 := f.(chunks := f.chunks + [ch0])]
    requires Scan(s, [hunk] + cs[..|cs| - 1]).position == |ChangeLinesOf(cs[..|cs| - 1])|
    requires HunkChunk(ch0, hunk, h, ChangeLinesOf(cs[..|cs| - 1]))
    ensures var f := Last(s.files);
      Scan(s, [hunk] + cs).files == s.files[|s.files| - 1 := f.(chunks := f.chunks + [ch])]
    ensures Scan(s, [hunk] + cs).position == |ChangeLinesOf(cs)|
    ensures HunkChunk(ch, hunk, h, ChangeLinesOf(cs))
  {
    var init, line := cs[..|cs| - 1], Last(cs);
    ScanHunkSnoc(s, hunk, cs);
    ch := LineOnto(Scan(s, [hunk] + init), s.files, ch0, line, hunk, h, ChangeLinesOf(init));
  }

  /** One line under a hunk header, once the header and the lines before it
      have made `ch0` the last chunk of the current record. */
  lemma LineOnto(s0: ScanState, files: seq<File>, ch0: Chunk, line: string,
                 hunk: string, h: HunkHeader.HunkHead, prev: seq<string>) returns (ch: Chunk)
    requires files != []
    requires s0.files == files[|files| - 1 := Last(files).(chunks := Last(files).chunks + [ch0])]
    requires s0.position == |prev| && HunkChunk(ch0, hunk, h, prev)
    requires Classify(line).Content? || Classify(line) == Other
    ensures var f := Last(files);
      Step(s0, line).files == files[|files| - 1 := f.(chunks := f.chunks + [ch])]
    ensures Step(s0, line).position == |prev| + (if Classify(line).Content? then 1 else 0)
    ensures HunkChunk(ch, hunk, h, prev + (if Classify(line).Content? then [line] else []))
  {
    if Classify(line).Content? {
      var t := Classify(line).t;
      var c := ScanProperties.NextChange(s0, line, t);
      RecordOnto(s0, files, ch0, line, t);
      ch := ch0.(changes := ch0.changes + [c]);
      ChangesAreSnoc(ch0.changes, prev, c, line);
    } else {
      ch := ch0;
      assert prev + [] == prev;
    }
  }

  /** A change line while the current record's last chunk is `ch`. */
  lemma RecordOnto(s0: ScanState, files: seq<File>, ch: Chunk, line: string, t: ChangeType)
    requires files != []
    requires s0.files == files[|files| - 1 := Last(files).(chunks := Last(files).chunks + [ch])]
    requires Classify(line) == Content(t)
    ensures var f := Last(files);
      var c := ScanProperties.NextChange(s0, line, t);
      Step(s0, line).files == files[|files| - 1 := f.(chunks := f.chunks + [ch.(changes := ch.changes + [c])])]
    ensures Step(s0, line).position == s0.position + 1
  {
    var f := Last(files);
    var ch' := ch.(changes := ch.changes + [ScanProperties.NextChange(s0, line, t)]);
    assert Last(s0.files) == f.(chunks := f.chunks + [ch]);
    ScanProperties.RecordShape(s0, line, t);
    assert (f.chunks + [ch])[|f.chunks| := ch'] == f.chunks + [ch'];
  }

  /** The same after a whole text: a hunk scanned once a record exists. */
  lemma RunHunk(lines: seq<string>, hunk: string, h: HunkHeader.HunkHead, cs: seq<string>) returns (ch: Chunk)
    requires Run(lines).files != [] && StartsWith(hunk, "@@") && HunkHeader.Parse(hunk) == Some(h) && HunkBody(cs)
    ensures var fs := Run(lines).files;
      Run(lines + ([hunk] + cs)).files == fs[|fs| - 1 := Last(fs).(chunks := Last(fs).chunks + [ch])]
    ensures HunkChunk(ch, hunk, h, ChangeLinesOf(cs))
  {
    RunThenScan(lines, [hunk] + cs);
    ch := ScanHunk(Run(lines), hunk, h, cs);
  }

  /** A hunk after a text that left one record with no hunk yet. */
  lemma OneRecordHunk(lines: seq<string>, f: File, hunk: string, h: HunkHeader.HunkHead, cs: seq<string>) returns (ch: Chunk)
    requires |Run(lines).files| == 1 && Run(lines).files[0] == f && f.chunks == []
    requires StartsWith(hunk, "@@") && HunkHeader.Parse(hunk) == Some(h) && HunkBody(cs)
    ensures Run(lines + ([hunk] + cs)).files == [f.(chunks := [ch])]
    ensures HunkChunk(ch, hunk, h, ChangeLinesOf(cs))
  {
    ch := RunHunk(lines, hunk, h, cs);
    SoleRecord(Run(lines).files, f, [], [ch]);
  }

  /** Two hunks after a text that left one record with no hunk yet. */
  lemma OneRecordTwoHunks(lines: seq<string>, f: File, hunk1: string, h1: HunkHeader.HunkHead, cs1: seq<string>,
                          hunk2: string, h2: HunkHeader.HunkHead, cs2: seq<string>) returns (ch1: Chunk, ch2: Chunk)
    requires |Run(lines).files| == 1 && Run(lines).files[0] == f && f.chunks == []
    requires StartsWith(hunk1, "@@") && HunkHeader.Parse(hunk1) == Some(h1) && HunkBody(cs1)
    requires StartsWith(hunk2, "@@") && HunkHeader.Parse(hunk2) == Some(h2) && HunkBody(cs2)
    ensures Run(lines + ([hunk1] + cs1) + ([hunk2] + cs2)).files == [f.(chunks := [ch1, ch2])]
    ensures HunkChunk(ch1, hunk1, h1, ChangeLinesOf(cs1)) && HunkChunk(ch2, hunk2, h2, ChangeLinesOf(cs2))
  {
    ch1 := OneRecordHunk(lines, f, hunk1, h1, cs1);
    ch2 := RunHunk(lines + ([hunk1] + cs1), hunk2, h2, cs2);
    SoleRecord(Run(lines + ([hunk1] + cs1)).files, f.(chunks := [ch1]), [ch1], [ch1, ch2]);
  }

  /** Adding a chunk to the only record. */
  lemma SoleRecord(fs: seq<File>, f: File, before: seq<Chunk>, after: seq<Chunk>)
    requires |fs| == 1 && fs[0] == f && |after| == |before| + 1 && after[..|before|] == before
    requires f.chunks == before
    ensures fs[0 := f.(chunks := f.chunks + [after[|before|]])] == [f.(chunks := after)]
  {
    assert before + [after[|before|]] == after;
  }
}
