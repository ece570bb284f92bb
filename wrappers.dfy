/** Option: an absent value (a null pointer, a `find` that reached `end()`) or a present one. */
module Wrappers {
  datatype Option<+T> = None | Some(value: T)
}
