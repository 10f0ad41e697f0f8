/** The records the parser produces: one `File` per file section, its hunks
    as `Chunk`s and each content line of a hunk as a `Change`. */
module DiffTypes {
  import opened Wrappers

  /** The side sentinel: this side of the diff has no file. */
  const DevNull := "/dev/null"

  /** The type of a change, taken from its first character. */
  datatype ChangeType = Add | Del | Normal

  /** The marker character a change of the given type starts with. */
  function Marker(t: ChangeType): char {
    match t
    case Add => '+'
    case Del => '-'
    case Normal => ' '
  }

  /** One content line of a hunk. `content` keeps the marker; `position` is
      the 1-based place in the hunk; `oldLine` is set on del and normal
      changes, `newLine` on add and normal changes. */
  datatype Change = Change(
    content: string,
    kind: ChangeType,
    position: nat,
    oldLine: Option<nat>,
    newLine: Option<nat>)

  /** One hunk: its header line verbatim, the four numbers of the header and
      its changes in input order. */
  datatype Chunk = Chunk(
    content: string,
    oldStart: nat,
    oldLines: nat,
    newStart: nat,
    newLines: nat,
    changes: seq<Change>)

  /** One file record. The paths are `None` where no header supplied one
      (JavaScript's `undefined`); `isNew` is the source's `new` flag. */
  datatype File = File(
    from: Option<string>,
    to: Option<string>,
    isNew: bool,
    deleted: bool,
    renamed: bool,
    chunks: seq<Chunk>)

  /** A record with nothing filled in yet. */
  const EmptyFile := File(None, None, false, false, false, [])
}
