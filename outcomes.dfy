/** Result types shared by the summary functions and the file-processing methods. */
module Outcomes {

  datatype Option<+T> = None | Some(value: T)

  datatype Result<+T, +E> = Ok(value: T) | Err(error: E)

  /** Errors that a processing function catches and logs (its `except` clauses). */
  datatype Caught = IOError | JsonDecodeError

  /** Errors that no handler catches, so they escape to the caller. */
  datatype Escaped =
    | StopIteration   // `next(reader)` on a CSV file without any record
    | AttributeError  // `.get` on a JSON top level that is not an object
    | TypeError       // `len` of a JSON value that has no length
    | OSError         // `open(path, 'w')` in a writer, which has no handler of its own
    | ValueError      // `time.sleep` with a negative duration
    | OverflowError   // `time.sleep` with a duration whose nanoseconds do not fit in 64 bits

  /** How one call of a processing function ended. */
  datatype Outcome = Completed | Logged(caught: Caught) | Raised(escaped: Escaped)
}
