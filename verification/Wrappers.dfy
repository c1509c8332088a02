/** Option, used wherever the sources use None, null, undefined or an absent dictionary entry. */
module Wrappers {
  datatype Option<+T> = None | Some(value: T)
}
