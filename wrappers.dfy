/** Option stands for a Java reference that may be null (or an empty java.util.Optional). */
module Wrappers {

  datatype Option<+T> = None | Some(value: T)

}
