/** Optional values: JavaScript's `undefined`/`null` alternatives and the
    result of a lookup that may find nothing. */
module Wrappers {

  datatype Option<+T> = None | Some(value: T)
}
