/** The optional value used for a stored snapshot that may be absent and for
    the world a keyword check may have unlocked. */
module Wrappers {
  datatype Option<+T> = None | Some(value: T)
}
