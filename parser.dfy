/** The entry point `parse(text, options)`: an absent, empty or
    whitespace-only text gives no records; otherwise the text is cut into
    lines, scanned once, and, when `findRenames` is set, the rename pass
    runs over the finished list. */
module DiffParser {
  import opened Wrappers
  import opened Text
  import opened DiffTypes
  import opened LineClassifier
  import opened Scanner
  import Renames

  /** What `parse` returns for the given text and option. */
  function ParseText(text: Option<string>, findRenames: bool): seq<File> {
    if text.None? || IsBlank(text.value) then []
    else
      var files := Run(SplitLines(text.value)).files;
      if findRenames then Renames.FindRenames(files) else files
  }

  method Parse(text: Option<string>, findRenames: bool) returns (files: seq<File>)
    ensures files == ParseText(text, findRenames)
    ensures text.None? || IsBlank(text.value) ==> files == []
    ensures text.Some? && !findRenames ==> files == Run(SplitLines(text.value)).files
  {
    if text.None? {
      return [];
    }
    var t := text.value;
    var i := 0;
    while i < |t| && IsSpace(t[i])
      invariant i <= |t|
      invariant forall j :: 0 <= j < i ==> IsSpace(t[j])
    {
      i := i + 1;
    }
    if i == |t| {
      BlankScansToNothing(t);
      return [];
    }
    files := ScanLines(SplitLines(t));
    if findRenames {
      files := Renames.DetectRenames(files);
    }
  }

  // ---------------------------------------------------------------------------
  // Blank input

  /** The guard for blank text agrees with the scan: no line of a blank
      text is a header, so scanning it would give no record either. */
  lemma BlankScansToNothing(t: string)
    requires IsBlank(t)
    ensures Run(SplitLines(t)).files == []
  {
    SplitBlank(t);
    BlankLinesScan(SplitLines(t));
  }

  lemma {:induction false} BlankLinesScan(lines: seq<string>)
    requires forall i :: 0 <= i < |lines| ==> IsBlank(lines[i])
    ensures Run(lines) == Initial
    decreases |lines|
  {
    if lines != [] {
      BlankLinesScan(lines[..|lines| - 1]);
      BlankLine(Last(lines));
    }
  }

  /** Parsing the text made of the given lines is scanning those lines. */
  lemma ParseLines(lines: seq<string>, findRenames: bool)
    requires |lines| >= 1
    requires forall i :: 0 <= i < |lines| ==> '\n' !in lines[i]
    requires !IsBlank(JoinLines(lines))
    ensures ParseText(Some(JoinLines(lines)), findRenames) ==
      (if findRenames then Renames.FindRenames(Run(lines).files) else Run(lines).files)
  {
    SplitJoin(lines);
  }

  /** A text whose first line is empty and whose second line starts with a
      visible character is not blank. */
  lemma FramedNotBlank(lines: seq<string>)
    requires |lines| >= 2 && lines[0] == "" && |lines[1]| > 0 && !IsSpace(lines[1][0])
    ensures !IsBlank(JoinLines(lines))
  {
    assert JoinLines(lines) == "\n" + JoinLines(lines[1..]);
    JoinedStart(lines[1..]);
    assert JoinLines(lines)[1] == lines[1][0];
  }
}
