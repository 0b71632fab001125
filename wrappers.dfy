/** The optional value used wherever the pretty-printer returns "nothing" (Python's None). */
module Wrappers {
  datatype Option<+T> = None | Some(value: T)
}
