/** A value that may be absent: JavaScript's `null` / `undefined`. */
module Optional {
  datatype Option<+T> = None | Some(value: T)
}
