/** The optional value used for Swift's `T?`: `nil` is None. */
module Options {

  datatype Option<+T> = None | Some(value: T)
}
