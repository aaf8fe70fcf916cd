/** The optional values every module uses where the source has `None`. */
module Options {
  datatype Option<+T> = None | Some(value: T)
}
