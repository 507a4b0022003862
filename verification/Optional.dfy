// A value that may be absent: what a lookup, a decoder or a control step hands back.
module Optional {
  datatype Option<+T> = None | Some(value: T)
}
