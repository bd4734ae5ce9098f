/** Optional values: `None` stands for the not-a-number result of an undefined metric. */
module Wrappers {
  datatype Option<+T> = None | Some(value: T)
}
