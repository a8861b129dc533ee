/** Optional values: `None` stands for a C# property left at `null`. */
module Wrappers {
  datatype Option<+T> = None | Some(value: T)
}
