/** A value that may be absent: the outcome of a best-effort load, or of an
    optional computation that was not performed. */
module Options {

  datatype Option<+T> = None | Some(value: T)
}
