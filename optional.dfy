/** A value that may be absent: stands for Java's `null` results and for JSON fields that are missing. */
module Optional {

  datatype Option<+T> = None | Some(value: T)
}
