/** The optional values used throughout the model (a nullable column, an absent key). */
module Options {
  datatype Option<+T> = None | Some(value: T)
}
