/** A value that may be absent: a missing row, an undefined field, a thrown error. */
module Optional {
  datatype Option<+T> = None | Some(value: T)
}
