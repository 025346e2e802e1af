/** The optional value used wherever the application works with `null`/`undefined`. */
module Wrappers {
  datatype Option<T> = None | Some(value: T)
}
