/** Path extraction for the three header dialects: the `diff --git` line,
    the `---`/`+++` pair (git, GNU diff, hg and svn) and the svn `Index:`
    line. */
module Headers {
  import opened Wrappers
  import opened Text
  import opened DiffTypes

  /** Drops the `a/` or `b/` prefix git and hg put on paths. */
  function StripPrefix(p: string): (r: string)
    ensures |r| <= |p| && p[|p| - |r|..] == r
  {
    if StartsWith(p, "a/") || StartsWith(p, "b/") then p[2..] else p
  }

  /** The path on a `--- `/`+++ ` line, given the text after the marker:
      it ends at the first whitespace, which drops the GNU, hg and svn
      timestamps and revision notes, and loses a git `a/`/`b/` prefix. */
  function MarkerPath(rest: string): (p: string)
    ensures NoSpace(p)
  {
    var t := Token(rest);
    var p := StripPrefix(t);
    assert forall i :: 0 <= i < |p| ==> p[i] == t[|t| - |p| + i];
    p
  }

  /** The two paths of `diff --git a/X b/Y`, given the text after
      `diff --git `: the first word and the word after the following space,
      each without its `a/`/`b/` prefix. `None` when either word is empty. */
  function GitPaths(rest: string): (r: Option<(string, string)>)
    ensures r.Some? ==> NoSpace(r.value.0) && NoSpace(r.value.1)
  {
    var first := Token(rest);
    if first == [] || |first| == |rest| then None
    else
      var second := Token(rest[|first| + 1..]);
      if second == [] then None
      else Some((MarkerPath(first), MarkerPath(second)))
  }

  /** The path of `Index: PATH`, taken verbatim up to the first whitespace. */
  function SvnPath(rest: string): (p: string)
    ensures StartsWith(rest, p) && NoSpace(p)
  {
    Token(rest)
  }

  // ---------------------------------------------------------------------------
  // What the extractors give back for headers as the tools write them

  /** `--- a/P<ws>DATE`, `--- b/P`, `--- P  DATE`: the path without its git
      prefix and without anything after the first whitespace. */
  lemma MarkerPathOf(prefix: string, p: string, tail: string)
    requires prefix == "a/" || prefix == "b/" || prefix == ""
    requires NoSpace(p) && !StartsWith(p, "a/") && !StartsWith(p, "b/")
    requires tail == [] || IsSpace(tail[0])
    ensures MarkerPath(prefix + p + tail) == p
  {
    assert NoSpace(prefix + p) by {
      forall i | 0 <= i < |prefix + p| ensures !IsSpace((prefix + p)[i]) {
        if i >= |prefix| { assert (prefix + p)[i] == p[i - |prefix|]; }
      }
    }
    assert prefix + p + tail == (prefix + p) + tail;
    TokenOf(prefix + p, tail);
    if prefix != "" {
      assert (prefix + p)[..2] == prefix;
      assert (prefix + p)[2..] == p;
    } else {
      assert prefix + p == p;
    }
  }

  /** The sentinel survives path extraction. */
  lemma DevNullPath(tail: string)
    requires tail == [] || IsSpace(tail[0])
    ensures MarkerPath(DevNull + tail) == DevNull
  {
    assert DevNull[..2] == "/d";
    MarkerPathOf("", DevNull, tail);
  }

  /** `diff --git a/X b/Y` gives X and Y. */
  lemma GitPathsOf(x: string, y: string)
    requires x != [] && y != []
    requires NoSpace(x) && NoSpace(y)
    requires !StartsWith(x, "a/") && !StartsWith(x, "b/")
    requires !StartsWith(y, "a/") && !StartsWith(y, "b/")
    ensures GitPaths("a/" + x + " b/" + y) == Some((x, y))
  {
    PrefixedNoSpace("a/", x);
    PrefixedNoSpace("b/", y);
    assert "a/" + x + " b/" + y == ("a/" + x) + " " + ("b/" + y);
    GitWords("a/" + x, "b/" + y);
    MarkerPathOf("a/", x, []);
    MarkerPathOf("b/", y, []);
    assert "a/" + x + [] == "a/" + x;
    assert "b/" + y + [] == "b/" + y;
  }

  lemma PrefixedNoSpace(prefix: string, x: string)
    requires prefix == "a/" || prefix == "b/"
    requires NoSpace(x)
    ensures NoSpace(prefix + x)
  {
    forall i | 0 <= i < |prefix + x| ensures !IsSpace((prefix + x)[i]) {
      if i >= 2 { assert (prefix + x)[i] == x[i - 2]; }
    }
  }

  /** Two words separated by one space are the two words of a git line. */
  lemma GitWords(a: string, b: string)
    requires a != [] && b != [] && NoSpace(a) && NoSpace(b)
    ensures GitPaths(a + " " + b) == Some((MarkerPath(a), MarkerPath(b)))
  {
    var rest := a + " " + b;
    assert rest == a + (" " + b);
    TokenOf(a, " " + b);
    assert rest[|a| + 1..] == b;
    TokenOf(b, []);
    assert b + [] == b;
  }
}
