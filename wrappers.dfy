/** An optional value, used wherever the page may produce nothing. */
module Wrappers {

  datatype Option<T> = None | Some(value: T)
}
