// Small shared datatypes.
module Wrappers {
  datatype Option<+T> = None | Some(value: T)

  // The outcome of evaluating code that may throw.
  datatype Outcome<+T> = Throws | Returns(value: T)
}
