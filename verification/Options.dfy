/** A value that may be missing: a pointer that may be NULL, or an answer that may fail. */
module Options {
  datatype Option<T> = None | Some(value: T)
}
