/** Option and the outcome of a JavaScript computation that may throw. */
module Wrappers {

  datatype Option<+T> = None | Some(value: T)

  /** What a JavaScript function call ends in: a value, or an exception
      (a `TypeError` from reading a property of `null`, from calling
      `forEach` on a non-array, ...). The model only needs to know THAT
      it threw, never with what. */
  datatype Outcome<+T> = Done(value: T) | Threw
}
