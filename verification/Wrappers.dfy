/** A value that may be missing: the source's `null` columns and unset keys. */
module Wrappers {
  datatype Option<+T> = None | Some(value: T)
}
