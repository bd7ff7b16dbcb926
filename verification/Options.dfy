/** A value that may be missing: the owner of a mutex, a datum not yet written. */
module Options {
  datatype Option<+T> = None | Some(value: T)
}
