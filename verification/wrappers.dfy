/** The optional value used wherever the dashboard code has `null` or `undefined`. */
module Wrappers {

  /** `None` stands for `null`/`undefined`, `Some(v)` for a present value. */
  datatype Option<+T> = None | Some(value: T)
}
