/** A value that may be missing, which the program spells as a nil pointer, a zero value or
    a second result. */
module Options {
  datatype Option<T> = None | Some(value: T)
}
