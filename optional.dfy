/** A value that may be absent, for JavaScript's `null`. */
module Optional {
  datatype Option<T> = None | Some(value: T)
}
