/** The optional value used wherever the source returns `null` or may fail. */
module Opt {
  datatype Option<+T> = None | Some(value: T)
}
