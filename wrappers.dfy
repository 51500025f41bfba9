/** Optional values, for the `Optional[...]` arguments and the absent-key lookups of the campus. */
module Wrappers {

  datatype Option<+T> = None | Some(value: T)

}
