/** The conventional Some/None datatype, in place of the source's nil, null and "found" flags. */
module Options {
  datatype Option<+T> = None | Some(value: T)
}
