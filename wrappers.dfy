/** The optional value used for the configuration's optional settings and for partial decoders. */
module Wrappers {
  datatype Option<+T> = None | Some(value: T)
}
