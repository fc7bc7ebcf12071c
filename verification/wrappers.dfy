/** The optional-value datatype used where the widget keeps a nullable reference. */
module Wrappers {

  /** `None` stands for Java's `null`. */
  datatype Option<+T> = None | Some(value: T)
}
