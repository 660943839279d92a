/** A value that may be missing: an absent Redis key, an absent field, a failed parse. */
module Options {
  datatype Option<+T> = None | Some(value: T)
}
