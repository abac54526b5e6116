/** A value that may be absent: a null column, a missing JSON field, Python's `None`. */
module Options {
  datatype Option<+T> = None | Some(value: T)
}
