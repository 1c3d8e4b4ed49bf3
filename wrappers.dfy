/** Failure-carrying results used where the Java code throws instead of returning. */
module Wrappers {

  /** `None` stands for the exception the Java code would raise (an exhausted input, say). */
  datatype Option<+T> = None | Some(value: T)
}
