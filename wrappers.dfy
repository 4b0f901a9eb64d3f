/** The optional value a lookup may yield (a nullable string in the repository). */
module Wrappers {
  datatype Option<T> = None | Some(value: T)
}
