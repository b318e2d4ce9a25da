/** Optional values, standing for the `null` a lookup can produce. */
module Wrappers {

  datatype Option<+T> = None | Some(value: T)
}
