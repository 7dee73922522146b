/** The optional value used where the source returns `None` or leaves a name unbound. */
module Wrappers {
  datatype Option<+T> = None | Some(value: T)
}
