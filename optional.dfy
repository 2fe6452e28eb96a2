/** A value that may be absent: a missing JSON key, a Python `None`. */
module Optional {
  datatype Option<+T> = None | Some(value: T)
}
