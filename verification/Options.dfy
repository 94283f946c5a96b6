/** The conventional None/Some datatype: a nil value, a NULL column or a failed call. */
module Options {
  datatype Option<+T> = None | Some(value: T)
}
