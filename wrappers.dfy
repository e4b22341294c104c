/** The optional-value datatype used across the model. */
module Wrappers {

  /** An absent or present value: an optional TypeScript property, or a NaN/undefined outcome. */
  datatype Option<+T> = None | Some(value: T)
}
