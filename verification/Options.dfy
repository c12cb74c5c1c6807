/** A value, or nothing: what the app writes as `undefined` or `null`. */
module Options {
  datatype Option<+T> = None | Some(value: T)
}
