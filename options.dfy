/** An optional value, for Python's `None` and JavaScript's `null` state slots. */
module Options {
  datatype Option<T> = None | Some(value: T)
}
