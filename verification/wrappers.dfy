/** The optional-result type used where the source returns a value or `None`. */
module Wrappers {

  datatype Option<+T> = None | Some(value: T)

}
