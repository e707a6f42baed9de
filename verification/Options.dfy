/** A value that may be missing: a nil pointer, a zero time, a failed lookup. */
module Options {
  datatype Option<+T> = None | Some(value: T)
}
