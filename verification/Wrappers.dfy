/** A value that may be missing: Python's None. */
module Wrappers {
  datatype Maybe<+T> = None | Some(value: T)
}
