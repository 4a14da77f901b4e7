/** Failure-carrying result types shared by the whole model.
    The Python code signals failure by raising; each exception it can raise on
    the modelled paths becomes an `Error` value here. */
module Wrappers {

  datatype Option<+T> = None | Some(value: T)

  /** The exceptions (and the one non-terminating loop) the modelled code can end in. */
  datatype Error =
    | KeyError        // a dictionary lookup on a missing key
    | IndexError      // a list or tuple index out of range
    | ValueError      // random.randrange on an empty range, max() of an empty sequence
    | ZeroDivision    // divmod by zero
    | OutOfFuel       // a retry loop that relies on re-sampling did not finish within its bound

  datatype Result<+T> = Ok(value: T) | Err(error: Error)
}
