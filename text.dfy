/** Character- and line-level helpers shared by the diff parser: prefix tests,
    whitespace, splitting the input into physical lines, whitespace-delimited
    tokens and decimal digit runs. */
module Text {
  import opened Wrappers

  predicate StartsWith(s: string, prefix: string) {
    |prefix| <= |s| && s[..|prefix|] == prefix
  }

  /** The characters matched by `\s` in the ASCII range. */
  predicate IsSpace(c: char) {
    c == ' ' || c == '\t' || c == '\n' || c == '\r' || c == '\U{B}' || c == '\U{C}'
  }

  /** Every character is whitespace (vacuously true of the empty string). */
  predicate IsBlank(s: string) {
    forall i :: 0 <= i < |s| ==> IsSpace(s[i])
  }

  predicate NoSpace(s: string) {
    forall i :: 0 <= i < |s| ==> !IsSpace(s[i])
  }

  predicate IsDigit(c: char) {
    '0' <= c <= '9'
  }

  predicate AllDigits(s: string) {
    forall i :: 0 <= i < |s| ==> IsDigit(s[i])
  }

  // ---------------------------------------------------------------------------
  // Lines

  /** Lines joined back with a newline between consecutive elements. */
  function JoinLines(lines: seq<string>): string
    requires |lines| >= 1
    decreases |lines|
  {
    if |lines| == 1 then lines[0] else lines[0] + "\n" + JoinLines(lines[1..])
  }

  /** The joined text begins with the first line. */
  lemma JoinedStart(lines: seq<string>)
    requires |lines| >= 1
    ensures StartsWith(JoinLines(lines), lines[0])
  {
  }

  /** The input cut at every newline, as `text.split('\n')` does: one more
      element than there are newlines, none of them containing a newline,
      and joining them back gives the text. */
  function SplitLines(s: string): (lines: seq<string>)
    ensures |lines| >= 1
    ensures forall i :: 0 <= i < |lines| ==> '\n' !in lines[i]
    ensures JoinLines(lines) == s
    decreases |s|
  {
    if s == [] then [""]
    else
      var rest := SplitLines(s[1..]);
      if s[0] == '\n' then
        assert s == "\n" + JoinLines(rest);
        [""] + rest
      else
        var lines := [[s[0]] + rest[0]] + rest[1..];
        assert lines[1..] == rest[1..];
        assert s == [s[0]] + s[1..];
        lines
  }

  /** Splitting undoes joining when no line holds a newline. */
  lemma {:induction false} SplitJoin(lines: seq<string>)
    requires |lines| >= 1
    requires forall i :: 0 <= i < |lines| ==> '\n' !in lines[i]
    ensures SplitLines(JoinLines(lines)) == lines
    decreases |lines|, |lines[0]|
  {
    if |lines| == 1 {
      SplitNoNewline(lines[0]);
    } else if lines[0] == [] {
      SplitJoin(lines[1..]);
      JoinEmptyFirst(lines);
      SplitNewlineFirst(JoinLines(lines[1..]));
    } else {
      var tail := [lines[0][1..]] + lines[1..];
      assert '\n' !in tail[0] by { assert forall c :: c in tail[0] ==> c in lines[0]; }
      assert forall i :: 1 <= i < |tail| ==> tail[i] == lines[i];
      SplitJoin(tail);
      JoinFirstChar(lines);
      assert lines[0][0] != '\n' by { assert lines[0][0] in lines[0]; }
      SplitCharFirst(lines[0][0], JoinLines(tail));
      assert [lines[0][0]] + tail[0] == lines[0];
    }
  }

  lemma JoinEmptyFirst(lines: seq<string>)
    requires |lines| >= 2 && lines[0] == []
    ensures JoinLines(lines) == "\n" + JoinLines(lines[1..])
  {
  }

  lemma JoinFirstChar(lines: seq<string>)
    requires |lines| >= 1 && lines[0] != []
    ensures JoinLines(lines) == [lines[0][0]] + JoinLines([lines[0][1..]] + lines[1..])
  {
    var tail := [lines[0][1..]] + lines[1..];
    assert tail[1..] == lines[1..];
    assert lines[0] == [lines[0][0]] + lines[0][1..];
  }

  lemma SplitNewlineFirst(x: string)
    ensures SplitLines("\n" + x) == [""] + SplitLines(x)
  {
    assert ("\n" + x)[1..] == x;
  }

  lemma SplitCharFirst(c: char, x: string)
    requires c != '\n'
    ensures SplitLines([c] + x) == [[c] + SplitLines(x)[0]] + SplitLines(x)[1..]
  {
    assert ([c] + x)[1..] == x;
  }

  lemma {:induction false} SplitNoNewline(s: string)
    requires '\n' !in s
    ensures SplitLines(s) == [s]
    decreases |s|
  {
    if s != [] {
      assert '\n' !in s[1..] by { assert forall c :: c in s[1..] ==> c in s; }
      SplitNoNewline(s[1..]);
      assert s[0] != '\n' by { assert s[0] in s; }
    }
  }

  /** Every line of a blank text is blank. */
  lemma {:induction false} SplitBlank(s: string)
    requires IsBlank(s)
    ensures forall i :: 0 <= i < |SplitLines(s)| ==> IsBlank(SplitLines(s)[i])
    decreases |s|
  {
    if s != [] {
      assert IsBlank(s[1..]) by { assert forall i :: 0 <= i < |s[1..]| ==> s[1..][i] == s[i + 1]; }
      SplitBlank(s[1..]);
      var rest := SplitLines(s[1..]);
      if s[0] != '\n' {
        var first := [s[0]] + rest[0];
        assert IsBlank(first) by {
          forall i | 0 <= i < |first| ensures IsSpace(first[i]) {
            if i > 0 { assert first[i] == rest[0][i - 1]; }
          }
        }
      }
    }
  }

  // ---------------------------------------------------------------------------
  // Tokens

  /** The longest prefix of `s` that holds no whitespace: the text up to, and
      not including, the first whitespace character. */
  function Token(s: string): (t: string)
    ensures StartsWith(s, t)
    ensures NoSpace(t)
    ensures |t| < |s| ==> IsSpace(s[|t|])
    decreases |s|
  {
    if s == [] || IsSpace(s[0]) then []
    else
      var t := Token(s[1..]);
      assert s[..1 + |t|] == [s[0]] + s[1..][..|t|];
      [s[0]] + t
  }

  /** A token followed by whitespace (or by nothing) is read back whole. */
  lemma {:induction false} TokenOf(t: string, rest: string)
    requires NoSpace(t)
    requires rest == [] || IsSpace(rest[0])
    ensures Token(t + rest) == t
    decreases |t|
  {
    if t != [] {
      assert (t + rest)[1..] == t[1..] + rest;
      TokenOf(t[1..], rest);
      assert t == [t[0]] + t[1..];
    }
  }

  // ---------------------------------------------------------------------------
  // Decimal numbers

  function DigitValue(c: char): nat
    requires IsDigit(c)
  {
    (c - '0') as nat
  }

  function DigitChar(d: nat): (c: char)
    requires d < 10
    ensures IsDigit(c) && DigitValue(c) == d
  {
    ('0' as int + d) as char
  }

  /** The value of a string of decimal digits, most significant first. */
  function DecimalValue(digits: string): nat
    requires AllDigits(digits)
    decreases |digits|
  {
    if digits == [] then 0
    else 10 * DecimalValue(digits[..|digits| - 1]) + DigitValue(digits[|digits| - 1])
  }

  /** The canonical decimal spelling of a natural (no leading zeros). */
  function NatToDecimal(n: nat): (s: string)
    ensures |s| >= 1 && AllDigits(s)
    ensures DecimalValue(s) == n
    decreases n
  {
    if n < 10 then [DigitChar(n)]
    else
      var s := NatToDecimal(n / 10) + [DigitChar(n % 10)];
      assert s[..|s| - 1] == NatToDecimal(n / 10);
      s
  }

  /** The number of leading decimal digits of `s`. */
  function DigitRun(s: string): (k: nat)
    ensures k <= |s|
    ensures AllDigits(s[..k])
    ensures k < |s| ==> !IsDigit(s[k])
    decreases |s|
  {
    if s == [] || !IsDigit(s[0]) then 0
    else
      var k := 1 + DigitRun(s[1..]);
      assert s[..k] == [s[0]] + s[1..][..k - 1];
      k
  }

  /** A leading run of at least one digit, read as a decimal natural, and
      the text after it; `None` when `s` does not start with a digit. */
  function ParseNat(s: string): (r: Option<(nat, string)>)
    ensures r.Some? <==> (|s| > 0 && IsDigit(s[0]))
    ensures r.Some? ==> |r.value.1| < |s| && s[|s| - |r.value.1|..] == r.value.1
    ensures r.Some? ==> r.value.1 == [] || !IsDigit(r.value.1[0])
  {
    var k := DigitRun(s);
    if k == 0 then None
    else Some((DecimalValue(s[..k]), s[k..]))
  }

  /** Reading the decimal spelling of `n` back gives `n` and leaves exactly
      the text that followed it. */
  lemma {:induction false} ParseNatOf(n: nat, rest: string)
    requires rest == [] || !IsDigit(rest[0])
    ensures ParseNat(NatToDecimal(n) + rest) == Some((n, rest))
  {
    var d := NatToDecimal(n);
    DigitRunOf(d, rest);
    assert (d + rest)[..|d|] == d;
    assert (d + rest)[|d|..] == rest;
  }

  lemma {:induction false} DigitRunOf(d: string, rest: string)
    requires AllDigits(d)
    requires rest == [] || !IsDigit(rest[0])
    ensures DigitRun(d + rest) == |d|
    decreases |d|
  {
    if d != [] {
      assert (d + rest)[1..] == d[1..] + rest;
      DigitRunOf(d[1..], rest);
    }
  }
}
