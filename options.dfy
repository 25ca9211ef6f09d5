/** An optional value: a dictionary key that may be absent, a session entry that may be unset. */
module Options {

  datatype Option<+T> = None | Some(value: T)
}
