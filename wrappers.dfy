/** The optional value JavaScript expresses with `undefined`, as returned by `Array.prototype.find`. */
module Wrappers {
  datatype Option<+T> = None | Some(value: T)
}
