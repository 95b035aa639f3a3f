/** Stand-in for Java's nullable references: a value or nothing (`null`). */
module Wrappers {

  datatype Option<+T> = None | Some(value: T)

}
