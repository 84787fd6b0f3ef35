/** Python's `None`-or-a-value, as a datatype. */
module Optional {
  datatype Option<T> = None | Some(value: T)
}
