/** Failure-compatible wrapper shared by every solver model. `None` stands for a Rust panic or an
    `Err` (the program gives up); `Some` carries the value the Rust code returns. */
module Wrappers {
  datatype Option<+T> = None | Some(value: T)
}
