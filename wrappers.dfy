/** Option and Result values, and the Python exceptions the pipeline raises. */
module Wrappers {

  datatype Option<+T> = None | Some(value: T)

  /** The exceptions that escape from the modelled functions, by Python class. */
  datatype Exception =
    | FileNotFoundError(message: string)
    | ValueError(message: string)
    | TypeError(message: string)
    | IndexError(message: string)
    | StopIteration
    | EmptyDataError

  /** A Python call either returns a value or raises. */
  datatype Result<+T> = Ok(value: T) | Raised(error: Exception)

  /** A Python call that returns nothing: it either completes or raises. */
  datatype Outcome = Completed | Fails(error: Exception)
}
