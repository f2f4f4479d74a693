/** The optional value used wherever the source has `undefined`, `null`
    or NaN. */
module Options {
  datatype Option<+T> = None | Some(value: T)
}
