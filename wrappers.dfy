/** Optional values: `None` stands for a C# `null` (a nullable criterion, a missing record). */
module Wrappers {
  datatype Option<+T> = None | Some(value: T)
}
