/** The optional value that stands for Go's nil values, empty IDs and missing objects. */
module Options {
  datatype Option<+T> = None | Some(value: T)
}
