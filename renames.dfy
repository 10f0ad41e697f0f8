/** The opt-in rename pass: a wholly deleted record and a wholly new record
    whose line payloads are identical collapse into one renamed record. */
module Renames {
  import opened Wrappers
  import opened DiffTypes

  /** The text of every change of the given type across the record's
      chunks, in order, without the leading marker. */
  function Payload(chunks: seq<Chunk>, t: ChangeType): seq<string>
    decreases |chunks|
  {
    if chunks == [] then []
    else Payload(chunks[..|chunks| - 1], t) + LinesOf(chunks[|chunks| - 1].changes, t)
  }

  function LinesOf(changes: seq<Change>, t: ChangeType): seq<string>
    decreases |changes|
  {
    if changes == [] then []
    else
      var c := changes[|changes| - 1];
      LinesOf(changes[..|changes| - 1], t) +
        (if c.kind == t then [if |c.content| > 0 then c.content[1..] else c.content] else [])
  }

  /** `gone` was deleted and `added` is new with exactly the lines `gone`
      lost. */
  predicate Pairable(gone: File, added: File) {
    gone.deleted && added.isNew && Payload(gone.chunks, Del) == Payload(added.chunks, Add)
  }

  /** `f` and `g` form a rename, in either order. */
  predicate Matches(f: File, g: File) {
    Pairable(f, g) || Pairable(g, f)
  }

  /** The record that replaces a matched pair: renamed, from the deleted
      record's old path to the new record's new path, with no chunks and no
      other flags. */
  function Merge(f: File, g: File): (r: File)
    requires Matches(f, g)
    ensures r.renamed && !r.isNew && !r.deleted && r.chunks == []
    ensures Pairable(f, g) ==> r.from == f.from && r.to == g.to
    ensures !Pairable(f, g) ==> r.from == g.from && r.to == f.to
  {
    if Pairable(f, g) then File(f.from, g.to, false, false, true, [])
    else File(g.from, f.to, false, false, true, [])
  }

  /** The first record of `rest` that forms a rename with `f`. */
  function Partner(f: File, rest: seq<File>): (r: Option<nat>)
    ensures r.Some? ==> r.value < |rest| && Matches(f, rest[r.value])
    ensures r.Some? ==> forall j :: 0 <= j < r.value ==> !Matches(f, rest[j])
    ensures r.None? ==> forall j :: 0 <= j < |rest| ==> !Matches(f, rest[j])
    decreases |rest|
  {
    if rest == [] then None
    else if Matches(f, rest[0]) then Some(0)
    else
      match Partner(f, rest[1..])
      case None => None
      case Some(k) => Some(k + 1)
  }

  function Without<T>(s: seq<T>, k: nat): seq<T>
    requires k < |s|
  {
    s[..k] + s[k + 1..]
  }

  /** The records with each rename collapsed: records are taken in order,
      and one that pairs with a later record is replaced by the merged
      record, the later one being dropped. */
  function FindRenames(files: seq<File>): seq<File>
    decreases |files|
  {
    if files == [] then []
    else
      var f := files[0];
      var rest := files[1..];
      match Partner(f, rest)
      case None => [f] + FindRenames(rest)
      case Some(k) => [Merge(f, rest[k])] + FindRenames(Without(rest, k))
  }

  /** The rename pass as a loop: the head of the worklist either finds its
      partner further on, and the two are replaced by one record, or is
      kept as it is. */
  method DetectRenames(files: seq<File>) returns (result: seq<File>)
    ensures result == FindRenames(files)
  {
    result := [];
    var rest := files;
    while rest != []
      invariant result + FindRenames(rest) == FindRenames(files)
      decreases |rest|
    {
      var head, rest' := TakeHead(rest);
      assert result + FindRenames(rest) == (result + [head]) + FindRenames(rest');
      result, rest := result + [head], rest';
    }
  }

  /** One round of the pass: the record the head of the worklist becomes,
      and what remains of the worklist. */
  method TakeHead(files: seq<File>) returns (head: File, rest: seq<File>)
    requires files != []
    ensures FindRenames(files) == [head] + FindRenames(rest)
    ensures |rest| < |files|
  {
    var f := files[0];
    var k := SeekPartner(f, files[1..]);
    if k < |files| - 1 {
      PairedHead(files, k);
      head, rest := Merge(f, files[1..][k]), Without(files[1..], k);
    } else {
      KeptHead(files);
      head, rest := f, files[1..];
    }
  }

  /** The scan for a partner: the index of the first record of `rest` that
      forms a rename with `f`, or `|rest|` when there is none. */
  method SeekPartner(f: File, rest: seq<File>) returns (k: nat)
    ensures k <= |rest|
    ensures Partner(f, rest) == if k < |rest| then Some(k) else None
  {
    k := 0;
    while k < |rest| && !Matches(f, rest[k])
      invariant k <= |rest|
      invariant forall j :: 0 <= j < k ==> !Matches(f, rest[j])
    {
      k := k + 1;
    }
    FirstMatchIsPartner(f, rest, k);
  }

  lemma PairedHead(files: seq<File>, k: nat)
    requires files != [] && Partner(files[0], files[1..]) == Some(k)
    ensures k < |files| - 1
    ensures FindRenames(files) == [Merge(files[0], files[1..][k])] + FindRenames(Without(files[1..], k))
  {
  }

  lemma KeptHead(files: seq<File>)
    requires files != [] && Partner(files[0], files[1..]).None?
    ensures FindRenames(files) == [files[0]] + FindRenames(files[1..])
  {
  }

  /** The first match is the partner, and with no match there is none. */
  lemma FirstMatchIsPartner(f: File, rest: seq<File>, k: nat)
    requires k <= |rest|
    requires forall j :: 0 <= j < k ==> !Matches(f, rest[j])
    requires k < |rest| ==> Matches(f, rest[k])
    ensures Partner(f, rest) == if k < |rest| then Some(k) else None
  {
  }

  // ---------------------------------------------------------------------------
  // Properties

  /** The pass never adds records: each rename removes exactly one. */
  lemma {:induction false} NeverLonger(files: seq<File>)
    ensures |FindRenames(files)| <= |files|
    decreases |files|
  {
    if files != [] {
      var rest := files[1..];
      match Partner(files[0], rest)
      case None => NeverLonger(rest);
      case Some(k) => NeverLonger(Without(rest, k));
    }
  }

  /** A record of the result is either a record of the input, or the merge
      of a deleted and a new input record with identical payloads, renamed
      from the deleted one's path to the new one's. */
  lemma ResultRecords(files: seq<File>, i: nat)
    requires i < |FindRenames(files)|
    ensures var r := FindRenames(files)[i];
      r in files ||
      (r.renamed && !r.isNew && !r.deleted && r.chunks == [] &&
       exists d, n :: d in files && n in files && Pairable(d, n) && r.from == d.from && r.to == n.to)
  {
    var d, n := ResultSource(files, i);
  }

  /** A result record `r` comes from the input `files`: it is one of them,
      or it merges the deleted record `d` with the new record `n`. */
  predicate FromInput(r: File, files: seq<File>, d: File, n: File) {
    r in files ||
    (r.renamed && !r.isNew && !r.deleted && r.chunks == [] && d in files && n in files && Pairable(d, n) && r.from == d.from && r.to == n.to)
  }

  /** The input records a result record comes from: itself, or the deleted
      record `d` and the new record `n` it merges. */
  lemma {:induction false} ResultSource(files: seq<File>, i: nat) returns (d: File, n: File)
    requires i < |FindRenames(files)|
    ensures FromInput(FindRenames(files)[i], files, d, n)
    decreases |files|
  {
    var rest := files[1..];
    match Partner(files[0], rest)
    case None =>
      if i == 0 {
        KeptHead(files);
        d, n := files[0], files[0];
      } else {
        KeptIndex(files, i);
        d, n := ResultSource(rest, i - 1);
        InTail(files);
        FromWider(FindRenames(files)[i], rest, files, d, n);
      }
    case Some(k) =>
      if i == 0 {
        d, n := HeadSource(files, k);
      } else {
        PairedIndex(files, k, i);
        var w := Without(rest, k);
        d, n := ResultSource(w, i - 1);
        InWithoutTail(files, k);
        FromWider(FindRenames(files)[i], w, files, d, n);
      }
  }

  /** The merge at the head of a paired result comes from the head and its
      partner. */
  lemma HeadSource(files: seq<File>, k: nat) returns (d: File, n: File)
    requires files != [] && Partner(files[0], files[1..]) == Some(k)
    ensures |FindRenames(files)| > 0 && FromInput(FindRenames(files)[0], files, d, n)
  {
    PairedHead(files, k);
    var f, g := files[0], files[1..][k];
    assert g == files[k + 1];
    if Pairable(f, g) {
      d, n := f, g;
    } else {
      d, n := g, f;
    }
  }

  lemma KeptIndex(files: seq<File>, i: nat)
    requires files != [] && Partner(files[0], files[1..]).None?
    requires 0 < i < |FindRenames(files)|
    ensures i - 1 < |FindRenames(files[1..])| && FindRenames(files)[i] == FindRenames(files[1..])[i - 1]
  {
    KeptHead(files);
  }

  lemma PairedIndex(files: seq<File>, k: nat, i: nat)
    requires files != [] && Partner(files[0], files[1..]) == Some(k)
    requires 0 < i < |FindRenames(files)|
    ensures k < |files| - 1
    ensures i - 1 < |FindRenames(Without(files[1..], k))|
    ensures FindRenames(files)[i] == FindRenames(Without(files[1..], k))[i - 1]
  {
    PairedHead(files, k);
  }

  /** Coming from some records means coming from any wider list. */
  lemma FromWider(r: File, small: seq<File>, files: seq<File>, d: File, n: File)
    requires FromInput(r, small, d, n)
    requires forall g :: g in small ==> g in files
    ensures FromInput(r, files, d, n)
  {
  }

  /** No two records of a sequence form a rename. */
  predicate NoPairs(files: seq<File>) {
    forall i, j :: 0 <= i < j < |files| ==> !Matches(files[i], files[j])
  }

  /** The pass leaves no rename behind: every deleted/new pair with equal
      payloads has been merged. */
  lemma {:induction false} NoPairsLeft(files: seq<File>)
    ensures NoPairs(FindRenames(files))
    decreases |files|
  {
    if files != [] {
      var rest := files[1..];
      match Partner(files[0], rest)
      case None =>
        KeptHead(files);
        NoPairsLeft(rest);
        HeadUnmatched(files[0], rest);
        PairsOfCons(files[0], FindRenames(rest));
      case Some(k) =>
        PairedHead(files, k);
        var w := Without(rest, k);
        var m := Merge(files[0], rest[k]);
        NoPairsLeft(w);
        PairsOfCons(m, FindRenames(w));
    }
  }

  /** A record with no partner in `rest` has none among the results for
      `rest` either: those are records of `rest` or merged records, which
      are neither new nor deleted. */
  lemma HeadUnmatched(f: File, rest: seq<File>)
    requires Partner(f, rest).None?
    ensures forall j :: 0 <= j < |FindRenames(rest)| ==> !Matches(f, FindRenames(rest)[j])
  {
    forall j | 0 <= j < |FindRenames(rest)| ensures !Matches(f, FindRenames(rest)[j]) {
      ResultRecords(rest, j);
      var r := FindRenames(rest)[j];
      if r in rest {
        var m :| 0 <= m < |rest| && rest[m] == r;
      }
    }
  }

  lemma PairsOfCons(h: File, s: seq<File>)
    requires NoPairs(s)
    requires forall j :: 0 <= j < |s| ==> !Matches(h, s[j])
    ensures NoPairs([h] + s)
  {
    var t := [h] + s;
    forall i, j | 0 <= i < j < |t| ensures !Matches(t[i], t[j]) {
      assert t[j] == s[j - 1];
      if i > 0 { assert t[i] == s[i - 1]; }
    }
  }

  lemma InTail(files: seq<File>)
    requires files != []
    ensures forall g :: g in files[1..] ==> g in files
  {
  }

  /** What remains after the head and its partner are taken out comes from
      the input. */
  lemma InWithoutTail(files: seq<File>, k: nat)
    requires files != [] && k < |files| - 1
    ensures forall g :: g in Without(files[1..], k) ==> g in files
  {
    var w := Without(files[1..], k);
    forall g | g in w ensures g in files {
      var j :| 0 <= j < |w| && w[j] == g;
      if j < k { assert g == files[j + 1]; } else { assert g == files[j + 2]; }
    }
  }

  /** A record that is neither new, deleted nor renamed. */
  predicate Plain(f: File) {
    !f.isNew && !f.deleted && !f.renamed
  }

  function PlainOnly(files: seq<File>): seq<File>
    decreases |files|
  {
    if files == [] then []
    else (if Plain(files[0]) then [files[0]] else []) + PlainOnly(files[1..])
  }

  lemma {:induction false} PlainOnlyWithout(s: seq<File>, k: nat)
    requires k < |s| && !Plain(s[k])
    ensures PlainOnly(Without(s, k)) == PlainOnly(s)
    decreases k
  {
    if k == 0 {
      assert Without(s, 0) == s[1..];
    } else {
      assert Without(s, k)[0] == s[0];
      assert Without(s, k)[1..] == Without(s[1..], k - 1);
      PlainOnlyWithout(s[1..], k - 1);
    }
  }

  /** Records that take no part in renames come through unchanged and in
      their original order. */
  lemma {:induction false} PlainRecordsKept(files: seq<File>)
    ensures PlainOnly(FindRenames(files)) == PlainOnly(files)
    decreases |files|
  {
    if files != [] {
      var f := files[0];
      var rest := files[1..];
      match Partner(f, rest)
      case None =>
        PlainRecordsKept(rest);
        assert ([f] + FindRenames(rest))[1..] == FindRenames(rest);
      case Some(k) =>
        var m := Merge(f, rest[k]);
        PlainRecordsKept(Without(rest, k));
        PlainOnlyWithout(rest, k);
        assert ([m] + FindRenames(Without(rest, k)))[1..] == FindRenames(Without(rest, k));
    }
  }

  /** With nothing to pair, the pass changes nothing. */
  lemma {:induction false} NoPairsNoChange(files: seq<File>)
    requires forall i, j :: 0 <= i < |files| && 0 <= j < |files| ==> !Pairable(files[i], files[j])
    ensures FindRenames(files) == files
    decreases |files|
  {
    if files != [] {
      var rest := files[1..];
      forall j | 0 <= j < |rest| ensures !Matches(files[0], rest[j]) {
        assert rest[j] == files[j + 1];
      }
      assert Partner(files[0], rest).None?;
      NoPairsNoChange(rest);
    }
  }

  /** A new record followed by a deleted one with the same lines collapse to
      exactly one renamed record from the deleted path to the new path. */
  lemma NewThenDeleted(added: File, gone: File)
    requires Pairable(gone, added) && !added.deleted
    ensures FindRenames([added, gone]) == [File(gone.from, added.to, false, false, true, [])]
  {
    assert [added, gone][1..] == [gone];
    assert Partner(added, [gone]) == Some(0);
    assert Without([gone], 0) == [];
  }
}
