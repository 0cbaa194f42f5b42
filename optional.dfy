/** The optional fields of the backend's JSON records (`field?: T`). */
module Optional {
  datatype Option<+T> = None | Some(value: T)
}
