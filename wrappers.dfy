/** The optional value the engine uses for JavaScript's `null`. */
module Wrappers {

  datatype Option<+T> = None | Some(value: T)
}
