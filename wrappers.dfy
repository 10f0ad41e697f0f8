/** The optional value used for JavaScript's `undefined` and for parses that
    do not match. */
module Wrappers {
  datatype Option<+T> = None | Some(value: T)
}
