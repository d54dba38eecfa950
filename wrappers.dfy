/** Optional values: `None` stands for a missing or non-finite (NaN, infinite) cell. */
module Wrappers {

  datatype Option<+T> = None | Some(value: T)
}
