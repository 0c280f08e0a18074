/** The optional value the sequencer uses where the source returns `None`. */
module Wrappers {

  datatype Option<+T> = None | Some(value: T)
}
