/** The optional-value datatype shared by every module of the model. */
module Wrappers {
  /** `None` stands for JavaScript's `null`/`undefined` wherever a value may be absent. */
  datatype Option<+T> = None | Some(value: T)
}
