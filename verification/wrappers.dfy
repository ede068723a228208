/** Failure-carrying results. The renderer reports a violated `Assert` by
    logging and throwing a runtime error; the model returns `Err` instead. */
module Wrappers {

  datatype Result<+T> = Ok(value: T) | Err(message: string) {
    predicate IsFailure() {
      Err?
    }
  }
}
