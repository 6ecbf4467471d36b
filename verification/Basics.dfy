/** Option, in the usual shape. */
module Basics {
  datatype Option<+T> = None | Some(value: T)
}
