module Options {
  /** A value that may be absent: a NULL column, a missing Redis key, Python's None. */
  datatype Option<+T> = None | Some(value: T)
}
