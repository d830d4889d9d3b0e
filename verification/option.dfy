/** An optional value: `None` where the source has Python's `None` or does nothing. */
module Options {
  datatype Option<T> = None | Some(value: T)
}
