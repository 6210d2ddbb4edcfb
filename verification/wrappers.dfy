/** The optional value used wherever the Java code passes or stores a reference that may be `null`. */
module Wrappers {

  /** `None` stands for Java's `null`, `Some(v)` for a present reference. */
  datatype Option<+T> = None | Some(value: T)
}
