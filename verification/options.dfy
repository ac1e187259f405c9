/** A value that may be absent: a nullable C pointer, a missing JSON member. */
module Options {
  datatype Option<+T> = None | Some(value: T)
}
