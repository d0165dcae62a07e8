/** A value that may be missing: Python's `None` or a list. */
module Optional {

  datatype Option<T> = None | Some(value: T)
}
