/** Python's `None`-or-value, used for the pending timer id and the current chat window. */
module Options {

  datatype Option<+T> = None | Some(value: T)
}
