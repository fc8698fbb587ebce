/** A value that may be absent: a nullable column, an optional argument, a lookup that may find nothing. */
module Options {
  datatype Option<+T> = None | Some(value: T)
}
