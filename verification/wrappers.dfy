/** The absent-or-present wrapper shared by every module of the model. */
module Wrappers {

  /** `None` stands for JavaScript's `null` (or a missing value), `Some` for a present one. */
  datatype Option<+T> = None | Some(value: T)
}
