/** The value that may be absent: JavaScript's `undefined`, or a failed parse. */
module Options {
  datatype Option<+T> = None | Some(value: T)
}
