/** The optional value used for SQL NULL, for Python's None and for parse failure. */
module Wrappers {
  datatype Option<+T> = None | Some(value: T)
}
