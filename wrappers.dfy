/** Optional values: a C# reference that may be null, or an engine query that may find nothing. */
module Wrappers {

  datatype Option<+T> = None | Some(value: T)
}
