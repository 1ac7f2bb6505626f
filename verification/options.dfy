/** A value that may be absent: the `null` results of the tracker (no checkpoint
    classified, no progress to show, no report emitted). */
module Options {

  datatype Option<+T> = None | Some(value: T)
}
