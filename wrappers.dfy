/** Optional values, standing for JavaScript's `undefined` and Python's `None`. */
module Wrappers {
  datatype Option<+T> = None | Some(value: T)
}
