/** Values that may be absent: Go's nil pointers, missing map entries and error returns. */
module Options {

  datatype Option<+T> = None | Some(value: T)
}
