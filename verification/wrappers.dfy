/** Optional values, used both for Python's `None` and for an operation that raises. */
module Wrappers {

  datatype Option<+T> = None | Some(value: T)
}
