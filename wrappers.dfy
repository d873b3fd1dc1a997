/** The optional-value wrapper used for optional record fields and for parsers. */
module Wrappers {

  datatype Option<T> = None | Some(value: T)
}
