/** Optional values, standing for Java references that may be null. */
module Wrappers {

  datatype Option<+T> = None | Some(value: T)

  /**
   * The outcome of evaluating a Java expression that may dereference null:
   * either it completes with a value, or it throws NullPointerException.
   */
  datatype Outcome<+T> = Normal(value: T) | NullPointer
}
