/** The absence signal used by the descriptor queries and parsers of this model. */
module Wrappers {

  datatype Option<+T> = None | Some(value: T)
}
