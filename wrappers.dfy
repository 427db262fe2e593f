/** Optional values and results shared by the day modules.  A `Result` carries
    either a value or the kind of Python exception the original code raises on
    that path (an `assert` that fails is an `AssertionError`).  `OutOfFuel` is
    not a Python exception: it is returned when a loop that the original runs
    without bound did not finish within the step bound the model was given. */
module Wrappers {

  datatype Option<+T> = None | Some(value: T)

  datatype Failure =
    | ValueError
    | KeyError
    | IndexError
    | TypeError
    | AttributeError
    | AssertionError
    | OutOfFuel

  datatype Result<+T> = Ok(value: T) | Err(failure: Failure)
}
