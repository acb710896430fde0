/** Option values: a column value that may be SQL NULL, or an operation that may fail. */
module Wrappers {

  datatype Option<+T> = None | Some(value: T)
}
