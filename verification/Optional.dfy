/** A value that may be absent: Go's nil, a missing map entry, a call without an error. */
module Optional {

  datatype Option<+T> = None | Some(value: T)
}
