/** The optional value used for absent dictionary keys and for the unset quiz result. */
module Wrappers {

  datatype Option<+T> = None | Some(value: T)
}
