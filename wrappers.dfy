/** The optional-value datatype used for "no open work" and for parse failures. */
module Wrappers {
  datatype Option<T> = None | Some(value: T)
}
