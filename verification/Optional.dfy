/** A value that may be missing: Go's nil values, missing map entries and error returns. */
module Optional {
  datatype Option<+T> = None | Some(value: T)
}
