/** The optional value used by the parser and the row lookup. */
module Wrappers {
  datatype Option<T> = None | Some(value: T)
}
