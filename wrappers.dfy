/** Failure-carrying results for the exceptions the modelled code throws, and for its NaN results. */
module Wrappers {

  /** The exceptions the modelled code raises, and the one result it leaves undefined. */
  datatype Failure =
    | EmptySamples    // ArgumentException: "Samples must not be empty."
    | BadArgument     // ArgumentException on an out-of-range parameter
    | NotFitted       // prediction requested before any fit
    | OutOfRange      // IndexOutOfRangeException: an input shorter than a component a split reads
    | Undefined       // no exception, but a 0/0 division leaves every component NaN

  datatype Result<+T> = Ok(value: T) | Err(error: Failure) {
    predicate IsFailure() { Err? }

    function PropagateFailure<U>(): Result<U>
      requires Err?
    {
      Err(error)
    }

    function Extract(): T
      requires Ok?
    {
      value
    }
  }

  datatype Option<+T> = None | Some(value: T)
}
