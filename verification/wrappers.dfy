/** The optional value returned by the store's lookups (Python's `None`). */
module Wrappers {

  datatype Option<+T> = None | Some(value: T)
}
