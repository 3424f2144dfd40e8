/** The optional value used by the readers of rendered text. */
module Wrappers {

  datatype Option<T> = None | Some(value: T)
}
