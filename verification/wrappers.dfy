/** Optional values: a request body key that is present (Some) or missing (None). */
module Wrappers {

  datatype Option<+T> = None | Some(value: T)
}
