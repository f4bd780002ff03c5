module Options {
  /** A nullable column, or the result of a lookup that may find nothing. */
  datatype Option<+T> = None | Some(value: T)
}
