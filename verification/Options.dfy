/** The usual optional value. It stands for Go's zero time, nil pointer and SQL NULL. */
module Options {
  datatype Option<+T> = None | Some(value: T)
}
