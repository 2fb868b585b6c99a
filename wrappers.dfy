/** The optional value used for C#'s nullable references (`test`, `tuple`, `DefaultValue`). */
module Wrappers {

  datatype Option<+T> = None | Some(value: T)
}
