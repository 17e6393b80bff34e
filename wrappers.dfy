/** The optional value the Kotlin code writes as a nullable type (`Piece?`). */
module Wrappers {
  datatype Option<+T> = None | Some(value: T)
}
