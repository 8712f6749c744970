/** Optional values: an absent (`undefined`/`null`) value is `None`. */
module Wrappers {

  datatype Option<+T> = None | Some(value: T)

}
