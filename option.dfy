/** The optional value used where the Java code holds a reference that may be null. */
module Options {
  datatype Option<+T> = None | Some(value: T)
}
