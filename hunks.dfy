/** The hunk header grammar `@@ -a[,b] +c[,d] @@[trailing text]`: four
    decimal naturals, an omitted count standing for 1 as in GNU diff. */
module HunkHeader {
  import opened Wrappers
  import opened Text

  datatype HunkHead = HunkHead(oldStart: nat, oldLines: nat, newStart: nat, newLines: nat)

  /** `start[,count]` at the head of `s`: the start, the count (1 when the
      comma part is absent) and the text after them. */
  function ParseRange(s: string): (r: Option<(nat, nat, string)>)
    ensures r.Some? ==> |r.value.2| < |s|
  {
    match ParseNat(s)
    case None => None
    case Some((start, rest)) =>
      if StartsWith(rest, ",") then
        match ParseNat(rest[1..])
        case None => None
        case Some((count, rest')) => Some((start, count, rest'))
      else Some((start, 1, rest))
  }

  /** The four numbers of a hunk header line, or `None` when the line does
      not follow the grammar. Text after the closing `@@` is allowed. */
  function Parse(line: string): Option<HunkHead> {
    if !StartsWith(line, "@@ -") then None
    else
      var oldRange := ParseRange(line[4..]);
      if oldRange.None? || !StartsWith(oldRange.value.2, " +") then None
      else
        var newRange := ParseRange(oldRange.value.2[2..]);
        if newRange.None? || !StartsWith(newRange.value.2, " @@") then None
        else Some(HunkHead(oldRange.value.0, oldRange.value.1, newRange.value.0, newRange.value.1))
  }

  /** The spelling of one range; the count is left out when `short`. */
  function RangeText(start: nat, count: nat, short: bool): string {
    NatToDecimal(start) + (if short then "" else "," + NatToDecimal(count))
  }

  /** A hunk header as diff tools write it, with the short form chosen per
      side and any trailing text (such as a function signature). */
  function Format(h: HunkHead, shortOld: bool, shortNew: bool, trailer: string): string {
    "@@ -" + RangeText(h.oldStart, h.oldLines, shortOld) + " +"
      + RangeText(h.newStart, h.newLines, shortNew) + " @@" + trailer
  }

  lemma ParseRangeOf(start: nat, count: nat, short: bool, rest: string)
    requires short ==> count == 1
    requires rest == [] || (!IsDigit(rest[0]) && rest[0] != ',')
    ensures ParseRange(RangeText(start, count, short) + rest) == Some((start, count, rest))
  {
    if short {
      ParseShortRange(start, rest);
    } else {
      ParseLongRange(start, count, rest);
    }
  }

  lemma ParseShortRange(start: nat, rest: string)
    requires rest == [] || (!IsDigit(rest[0]) && rest[0] != ',')
    ensures ParseRange(RangeText(start, 1, true) + rest) == Some((start, 1, rest))
  {
    assert RangeText(start, 1, true) + rest == NatToDecimal(start) + rest;
    ParseNatOf(start, rest);
    assert !StartsWith(rest, ",");
  }

  lemma ParseLongRange(start: nat, count: nat, rest: string)
    requires rest == [] || (!IsDigit(rest[0]) && rest[0] != ',')
    ensures ParseRange(RangeText(start, count, false) + rest) == Some((start, count, rest))
  {
    var digits := NatToDecimal(count);
    var tail := "," + digits + rest;
    assert RangeText(start, count, false) + rest == NatToDecimal(start) + tail by {
      assert RangeText(start, count, false) == NatToDecimal(start) + ("," + digits);
    }
    assert StartsWith(tail, ",") && tail[1..] == digits + rest by {
      assert tail == [','] + (digits + rest);
    }
    ParseNatOf(start, tail);
    ParseNatOf(count, rest);
  }

  /** Reading a formatted header back gives its numbers: in particular an
      omitted count reads as 1, and trailing text is ignored. */
  lemma {:induction false} ParseFormat(h: HunkHead, shortOld: bool, shortNew: bool, trailer: string)
    requires shortOld ==> h.oldLines == 1
    requires shortNew ==> h.newLines == 1
    ensures Parse(Format(h, shortOld, shortNew, trailer)) == Some(h)
  {
    var oldPart := RangeText(h.oldStart, h.oldLines, shortOld);
    var newPart := RangeText(h.newStart, h.newLines, shortNew);
    var afterNew := " @@" + trailer;
    var afterOld := " +" + (newPart + afterNew);
    FormatShape(h, shortOld, shortNew, trailer);
    ParseRangeOf(h.newStart, h.newLines, shortNew, afterNew);
    ParseRangeOf(h.oldStart, h.oldLines, shortOld, afterOld);
    ParseParts(h, oldPart, afterOld, newPart, afterNew);
  }

  lemma FormatShape(h: HunkHead, shortOld: bool, shortNew: bool, trailer: string)
    ensures Format(h, shortOld, shortNew, trailer) ==
      "@@ -" + (RangeText(h.oldStart, h.oldLines, shortOld) +
        (" +" + (RangeText(h.newStart, h.newLines, shortNew) + (" @@" + trailer))))
  {
  }

  lemma ParseParts(h: HunkHead, oldPart: string, afterOld: string, newPart: string, afterNew: string)
    requires afterOld == " +" + (newPart + afterNew)
    requires StartsWith(afterNew, " @@")
    requires ParseRange(newPart + afterNew) == Some((h.newStart, h.newLines, afterNew))
    requires ParseRange(oldPart + afterOld) == Some((h.oldStart, h.oldLines, afterOld))
    ensures Parse("@@ -" + (oldPart + afterOld)) == Some(h)
  {
    var line := "@@ -" + (oldPart + afterOld);
    assert line[4..] == oldPart + afterOld;
    assert afterOld[2..] == newPart + afterNew;
  }

  /** `@@ -1 +0,0 @@`: a one-line file removed entirely. */
  lemma ShortOldForm()
    ensures Parse("@@ -1 +0,0 @@") == Some(HunkHead(1, 1, 0, 0))
  {
    var h := HunkHead(1, 1, 0, 0);
    assert RangeText(1, 1, true) == "1";
    assert RangeText(0, 0, false) == "0,0";
    FormatIs(h, true, false, "@@ -1 +0,0 @@");
  }

  /** `@@ -0,0 +1 @@`: a one-line file added. */
  lemma ShortNewForm()
    ensures Parse("@@ -0,0 +1 @@") == Some(HunkHead(0, 0, 1, 1))
  {
    var h := HunkHead(0, 0, 1, 1);
    assert RangeText(0, 0, false) == "0,0";
    assert RangeText(1, 1, true) == "1";
    FormatIs(h, false, true, "@@ -0,0 +1 @@");
  }

  /** The first hunk of the GNU manual's sample diff. */
  lemma GnuFirstHunk()
    ensures Parse("@@ -1,7 +1,6 @@") == Some(HunkHead(1, 7, 1, 6))
  {
    var h := HunkHead(1, 7, 1, 6);
    assert RangeText(1, 7, false) == "1,7";
    assert RangeText(1, 6, false) == "1,6";
    FormatIs(h, false, false, "@@ -1,7 +1,6 @@");
  }

  /** The second hunk of the GNU manual's sample diff. */
  lemma GnuSecondHunk()
    ensures Parse("@@ -9,3 +8,6 @@") == Some(HunkHead(9, 3, 8, 6))
  {
    var h := HunkHead(9, 3, 8, 6);
    assert RangeText(9, 3, false) == "9,3";
    assert RangeText(8, 6, false) == "8,6";
    FormatIs(h, false, false, "@@ -9,3 +8,6 @@");
  }

  lemma FormatIs(h: HunkHead, shortOld: bool, shortNew: bool, line: string)
    requires shortOld ==> h.oldLines == 1
    requires shortNew ==> h.newLines == 1
    requires line == "@@ -" + RangeText(h.oldStart, h.oldLines, shortOld) + " +"
      + RangeText(h.newStart, h.newLines, shortNew) + " @@"
    ensures Parse(line) == Some(h)
  {
    ParseFormat(h, shortOld, shortNew, "");
    assert line == Format(h, shortOld, shortNew, "");
  }
}
