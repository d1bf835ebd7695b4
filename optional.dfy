/** The absent-or-present wrapper used throughout the model. */
module Optional {

  /** A value that may be missing (JavaScript `undefined`). */
  datatype Option<+T> = None | Some(value: T)
}
