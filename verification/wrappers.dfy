/** The Option datatype used in place of the source's nullable return values. */
module Wrappers {

  /** `None` stands for a JavaScript `null` result; `Some(v)` for a present value. */
  datatype Option<+T> = None | Some(value: T)
}
