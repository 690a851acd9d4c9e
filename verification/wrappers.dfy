/** The optional-value datatype shared by the modules of this project. */
module Wrappers {

  /** A value that may be absent: JavaScript's `undefined`/`null`/`false` results map to None. */
  datatype Option<+T> = None | Some(value: T)
}
