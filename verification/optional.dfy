/** A value that may be absent. */
module Optional {

  /** The usual Some/None wrapper; `None` also stands for an Objective-C `nil`. */
  datatype Option<+T> = None | Some(value: T)
}
