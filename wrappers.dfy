/** The optional value used wherever the HUD holds `null` or an object. */
module Wrappers {
  datatype Option<+T> = None | Some(value: T)
}
