/** The optional value shared by the other modules. */
module Wrappers {

  /** A value that may be missing (JavaScript's `undefined`). */
  datatype Option<+T> = None | Some(value: T)
}
