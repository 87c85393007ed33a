/** The optional value every nullable column and missing dictionary entry is. */
module Options {
  datatype Option<+T> = None | Some(value: T)
}
