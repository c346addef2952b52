/** The optional value used for nullable references and "no hit" answers. */
module Wrappers {
  datatype Option<+T> = None | Some(value: T)
}
