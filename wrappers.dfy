/** Option, for values that may be absent (a failed intersection, an exhausted sampler). */
module Wrappers {
  datatype Option<+T> = None | Some(value: T)
}
