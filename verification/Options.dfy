/** A value that may be missing: an absent JSON field, or a script that raised. */
module Options {
  datatype Option<+T> = None | Some(value: T)
}
