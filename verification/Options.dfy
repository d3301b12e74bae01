/** A value, or the exception, null or -1 the source has in its place. */
module Options {
  datatype Option<+T> = None | Some(value: T)
}
