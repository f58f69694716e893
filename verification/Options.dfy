/** A value that may be absent: null, undefined, or a field that is not there. */
module Options {
  datatype Option<+T> = None | Some(value: T)
}
