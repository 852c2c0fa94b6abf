/** Optional values: a missing state, a nil block, a missing rule. */
module Wrappers {
  datatype Option<+T> = None | Some(value: T)
}
