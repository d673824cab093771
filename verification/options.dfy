/** The optional value shared by the classifier chain (no gesture) and the
    key table (no binding). */
module Options {
  datatype Option<T> = None | Some(value: T)
}
