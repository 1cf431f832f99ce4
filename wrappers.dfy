/** The absent-or-present value that stands for JavaScript's `null`-or-object. */
module Wrappers {
  datatype Option<+T> = None | Some(value: T)
}
