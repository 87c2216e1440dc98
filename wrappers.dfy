/** Absence as a value: `None` stands for the `null` that the Java code returns
    when a key is not found. */
module Wrappers {

  datatype Option<+T> = None | Some(value: T)
}
