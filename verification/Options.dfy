/** The one shared helper type: Go's nilable pointers and "no rows" results. */
module Options {
  datatype Option<+T> = None | Some(value: T)
}
