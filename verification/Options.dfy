module Options {
  /** A value the source may leave out or fail to find. */
  datatype Option<T> = None | Some(value: T)
}
