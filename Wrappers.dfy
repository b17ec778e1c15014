/** The optional value used wherever the plugin reads something that may be `undefined` or `null`. */
module Wrappers {

  datatype Option<+T> = None | Some(value: T)
}
