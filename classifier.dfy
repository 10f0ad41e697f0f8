/** Sorting a physical line by its fixed leading marker. */
module LineClassifier {
  import opened Text
  import opened DiffTypes

  datatype LineKind =
    | GitStart         // diff --git a/X b/Y
    | HgStart          // diff -r REV [-r REV] PATH
    | SvnIndex         // Index: PATH
    | NewFileMode      // new file mode NNNNNN
    | DeletedFileMode  // deleted file mode NNNNNN
    | IndexLine        // index HASH..HASH [MODE]
    | OldPath          // --- PATH [DATE]
    | NewPath          // +++ PATH [DATE]
    | HunkStart        // @@ -a[,b] +c[,d] @@ ...
    | Content(t: ChangeType)  // '+', '-' or ' ' followed by the line
    | Other            // anything else: skipped

  /** The line starts with one of the header markers. */
  predicate IsHeaderLine(line: string) {
    StartsWith(line, "diff --git ") || StartsWith(line, "diff -r ") ||
    StartsWith(line, "Index: ") || StartsWith(line, "new file mode") ||
    StartsWith(line, "deleted file mode") || StartsWith(line, "index ") ||
    StartsWith(line, "--- ") || StartsWith(line, "+++ ") || StartsWith(line, "@@")
  }

  /** The tag of a line. Header markers are tried first, in a fixed order, so
      `+++ `, `--- ` and `@@` win over a bare `+` or `-`; then the change
      type named by the first character; anything else is `Other`. */
  function Classify(line: string): (k: LineKind)
    ensures k.Content? ==> |line| > 0 && line[0] == Marker(k.t) && !IsHeaderLine(line)
    ensures k == Other <==> !IsHeaderLine(line) && (line == [] || line[0] !in {'+', '-', ' '})
    ensures k == Content(Normal) <==> |line| > 0 && line[0] == ' '
    ensures k == GitStart ==> StartsWith(line, "diff --git ")
    ensures k == SvnIndex ==> StartsWith(line, "Index: ")
    ensures k == OldPath ==> StartsWith(line, "--- ")
    ensures k == NewPath ==> StartsWith(line, "+++ ")
  {
    FirstChar(line);
    if StartsWith(line, "diff --git ") then GitStart
    else if StartsWith(line, "diff -r ") then HgStart
    else if StartsWith(line, "Index: ") then SvnIndex
    else if StartsWith(line, "new file mode") then NewFileMode
    else if StartsWith(line, "deleted file mode") then DeletedFileMode
    else if StartsWith(line, "index ") then IndexLine
    else if StartsWith(line, "--- ") then OldPath
    else if StartsWith(line, "+++ ") then NewPath
    else if StartsWith(line, "@@") then HunkStart
    else if |line| > 0 && line[0] == '+' then Content(Add)
    else if |line| > 0 && line[0] == '-' then Content(Del)
    else if |line| > 0 && line[0] == ' ' then Content(Normal)
    else Other
  }

  /** Each tag is given exactly to the lines that start with its marker:
      the header markers exclude each other, and a change marker counts only
      when the line is not a header. */
  lemma ClassifyByMarker(line: string)
    ensures Classify(line) == Content(Normal) <==> |line| > 0 && line[0] == ' '
    ensures Classify(line) == Content(Add) <==> |line| > 0 && line[0] == '+' && !StartsWith(line, "+++ ")
    ensures Classify(line) == Content(Del) <==> |line| > 0 && line[0] == '-' && !StartsWith(line, "--- ")
    ensures Classify(line) == GitStart <==> StartsWith(line, "diff --git ")
    ensures Classify(line) == HgStart <==> StartsWith(line, "diff -r ")
    ensures Classify(line) == SvnIndex <==> StartsWith(line, "Index: ")
    ensures Classify(line) == NewFileMode <==> StartsWith(line, "new file mode")
    ensures Classify(line) == DeletedFileMode <==> StartsWith(line, "deleted file mode")
    ensures Classify(line) == IndexLine <==> StartsWith(line, "index ")
    ensures Classify(line) == OldPath <==> StartsWith(line, "--- ")
    ensures Classify(line) == NewPath <==> StartsWith(line, "+++ ")
    ensures Classify(line) == HunkStart <==> StartsWith(line, "@@")
  {
    FirstChar(line);
    LeadingChars(line);
  }

  /** The tags that open a file record, either always (`diff`, `Index:`)
      or when the current record already has hunks. */
  predicate Opens(k: LineKind) {
    k in {GitStart, HgStart, SvnIndex, NewFileMode, DeletedFileMode, IndexLine, OldPath, NewPath}
  }

  /** The tags that always open a new file record. */
  predicate Starts(k: LineKind) {
    k in {GitStart, HgStart, SvnIndex}
  }

  /** A header line is never empty and never starts with whitespace. */
  lemma FirstChar(line: string)
    ensures IsHeaderLine(line) ==> |line| > 0 && line[0] in {'d', 'I', 'n', 'i', '-', '+', '@'}
  {
    if IsHeaderLine(line) {
      assert |line| > 0;
      assert line[0] == line[..2][0];
    }
  }

  /** The header markers differ within their first seven characters, so at
      most one of them starts a line. */
  lemma LeadingChars(line: string)
    ensures StartsWith(line, "diff --git ") ==> line[0] == 'd' && line[1] == 'i' && line[6] == '-'
    ensures StartsWith(line, "diff -r ") ==> line[0] == 'd' && line[1] == 'i' && line[6] == 'r'
    ensures StartsWith(line, "deleted file mode") ==> line[0] == 'd' && line[1] == 'e'
    ensures StartsWith(line, "Index: ") ==> line[0] == 'I'
    ensures StartsWith(line, "index ") ==> line[0] == 'i'
    ensures StartsWith(line, "new file mode") ==> line[0] == 'n'
    ensures StartsWith(line, "--- ") ==> line[0] == '-'
    ensures StartsWith(line, "+++ ") ==> line[0] == '+'
    ensures StartsWith(line, "@@") ==> line[0] == '@'
  {
    if StartsWith(line, "diff --git ") { assert line[..11][6] == '-'; }
    if StartsWith(line, "diff -r ") { assert line[..8][6] == 'r'; }
    if StartsWith(line, "deleted file mode") { assert line[..17][1] == 'e'; }
  }

  /** A line whose first character is a change marker is that change unless
      it is one of the `+++ `, `--- ` header lines. */
  lemma ContentLine(line: string, t: ChangeType)
    requires |line| > 0 && line[0] == Marker(t)
    requires !StartsWith(line, "+++ ") && !StartsWith(line, "--- ")
    ensures Classify(line) == Content(t)
  {
    FirstChar(line);
  }

  /** No header marker starts with whitespace, so a blank line is either an
      unchanged (context) line or skipped. */
  lemma BlankLine(line: string)
    requires IsBlank(line)
    ensures Classify(line) == Other || Classify(line) == Content(Normal)
  {
    FirstChar(line);
  }
}
