/** An optional value, for the nil pointers and missing entries of the sources. */
module Options {
  datatype Option<+T> = None | Some(value: T)
}
