/** The optional value used wherever the source has `undefined`, `null` or a
    JavaScript number that is not finite. */
module Wrappers {

  datatype Option<+T> = None | Some(value: T)
}
