/** A value that may be absent: JavaScript's `undefined` or `null`, or the result of a call that throws. */
module Options {
  datatype Option<+T> = None | Some(value: T)
}
