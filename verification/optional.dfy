/** An optional value, used for results that may be absent (a failed parse, a missing error). */
module Optional {

  datatype Option<+T> = None | Some(value: T)
}
