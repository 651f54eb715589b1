/** Optional values, standing for JavaScript's `null` / `undefined` alternatives. */
module Wrappers {

  datatype Option<+T> = None | Some(value: T)
}
