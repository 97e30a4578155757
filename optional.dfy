/** A value that may be absent: JavaScript's `null` for a state field, or `NaN` from a parse. */
module Optional {

  datatype Option<+T> = None | Some(value: T)
}
