/** The optional-value type shared by the server and the client modules. */
module Wrappers {
  datatype Option<T> = None | Some(value: T)
}
