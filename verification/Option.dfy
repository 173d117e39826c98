/** Values that may be absent; `None` also stands for Go's nil error. */
module Options {
  datatype Option<+T> = None | Some(value: T)
}
