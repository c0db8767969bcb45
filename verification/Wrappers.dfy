/** The optional-value datatype used wherever the Java code allows `null`
    or returns `java.util.Optional`. */
module Wrappers {

  datatype Option<+T> = None | Some(value: T)
}
