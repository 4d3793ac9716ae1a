/** Shared value types of the scheduler model. */
module Common {

  /** An optional value: a JavaScript value that may be `undefined`. */
  datatype Option<+T> = None | Some(value: T)
}
