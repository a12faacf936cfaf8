/** A value that may be absent: Java's `null`, or a computation that has nothing to report. */
module Optional {

  datatype Option<+T> = None | Some(value: T)
}
