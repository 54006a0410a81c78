/** The optional value used for Swift's `Stroke?` and similar optionals. */
module Wrappers {
  datatype Option<+T> = None | Some(value: T)
}
