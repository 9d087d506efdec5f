/** The optional value used wherever the dashboard stores `null` or finds nothing. */
module Options {
  datatype Option<+T> = None | Some(value: T)
}
