/** Optional values: the `null | T` of the client and the `Option` / parse outcomes of the server. */
module Wrappers {
  datatype Option<+T> = None | Some(value: T)
}
