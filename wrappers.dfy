/** Optional values: a TypeScript `T | undefined` or an absent optional field. */
module Wrappers {
  datatype Option<+T> = None | Some(value: T)
}
