/** The optional value used for a mask that may be absent and for `lr_step`'s three outcomes. */
module Wrappers {
  datatype Option<+T> = None | Some(value: T)
}
