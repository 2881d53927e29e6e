/** Optional values, standing for JavaScript's `null` and for Python's `None`. */
module Wrappers {

  datatype Option<+T> = None | Some(value: T)
}
