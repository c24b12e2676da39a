/** Failure-carrying values used where the source returns `Option` or panics. */
module Wrappers {
  datatype Option<+T> = None | Some(value: T)
}
