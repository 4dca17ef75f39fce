/** Optional values: a nullable SQL column, a missing form field, a query that found no row. */
module Wrappers {
  datatype Option<+T> = None | Some(value: T)
}
