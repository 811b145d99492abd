/** Optional values, standing for JavaScript's `undefined`/`null` results of a lookup. */
module Wrappers {
  datatype Option<+T> = None | Some(value: T)
}
