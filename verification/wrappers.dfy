/** The absent/present wrapper used wherever the source returns a Java null. */
module Wrappers {

  /** `None` stands for a null reference, `Some(v)` for a present value. */
  datatype Option<+T> = None | Some(value: T)
}
