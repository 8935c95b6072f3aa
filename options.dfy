/** The optional value shared by every module: a query parameter or a JSON key that may be
    missing, and a lookup that may find nothing. */
module Options {
  datatype Option<T> = None | Some(value: T)
}
