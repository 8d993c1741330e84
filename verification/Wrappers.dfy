/** The result of an operation that may have nothing to return: the source's null pointers. */
module Wrappers {

  datatype Option<+T> = None | Some(value: T)

}
