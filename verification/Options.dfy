// The absent-or-present value that stands for the source's nil values and error returns.
module Options {
  datatype Option<+T> = None | Some(value: T)
}
