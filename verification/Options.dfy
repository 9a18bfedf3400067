/** A value that may be missing: the source's NULL pointers and failed lookups. */
module Options {
  datatype Option<+T> = None | Some(value: T)
}
