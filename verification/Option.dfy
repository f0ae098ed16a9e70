/** The optional value used where the source has a zero time, a nil pointer or an `ok` result. */
module Option {
  datatype Option<+T> = None | Some(value: T)
}
