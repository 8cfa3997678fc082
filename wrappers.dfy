/** The outcome of a parse: `None` when the text is rejected. */
module Wrappers {
  datatype Option<+T> = None | Some(value: T)
}
