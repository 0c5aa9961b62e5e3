/** Option and Result, used for the source's nullable pointers and thrown lookup failures. */
module Wrappers {
  /** A nullable owning pointer: `None` is `nullptr`. */
  datatype Option<+T> = None | Some(value: T)

  /** The outcome of an operation that the source ends by throwing. */
  datatype Result<+T, +E> = Ok(value: T) | Err(error: E)
}
