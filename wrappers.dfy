/** The optional-value datatype used by the model. */
module Wrappers {

  /** `Some(v)` for a present value, `None` for an absent one. */
  datatype Option<+T> = None | Some(value: T)
}
