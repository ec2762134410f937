/** Optional values: a Python value that may be `None`, or a lookup that may miss. */
module Wrappers {

  datatype Option<+T> = None | Some(value: T)
}
