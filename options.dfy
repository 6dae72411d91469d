/** A value that may be missing: a pandas cell holding NaN is `None`. */
module Options {

  datatype Option<+T> = None | Some(value: T)
}
