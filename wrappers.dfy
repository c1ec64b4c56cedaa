/** Small failure-compatible wrapper shared by every module of the model. */
module Wrappers {

  /** `None` stands for JavaScript's `undefined` (a missing property) or for a failed step. */
  datatype Option<+T> = None | Some(value: T)
}
