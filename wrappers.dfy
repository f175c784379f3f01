/** Optional values: a JSON `null` or absent field, and the unset "last applied" state. */
module Wrappers {

  datatype Option<+T> = None | Some(value: T)
}
