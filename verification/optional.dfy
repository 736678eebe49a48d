/** Python's `None`-or-value, as used for the session's dates and the
    computed recurrence intervals. */
module Optional {

  datatype Option<+T> = None | Some(value: T)
}
