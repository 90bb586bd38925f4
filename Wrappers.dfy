/** Optional values, used for the source's null references and failed lookups. */
module Wrappers {

  datatype Option<+T> = None | Some(value: T)
}
