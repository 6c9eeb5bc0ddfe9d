/** The optional-value datatype used throughout the model. */
module Wrappers {

  /** `None` stands for a value that is absent (JavaScript `undefined`). */
  datatype Option<+T> = None | Some(value: T)
}
