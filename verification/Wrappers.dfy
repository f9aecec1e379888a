/** The optional value used for Go's nil errors, contexts that are not done, and `ok` results. */
module Wrappers {
  datatype Option<+T> = None | Some(value: T)
}
