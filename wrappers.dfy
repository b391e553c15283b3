/** Option and Result values, and the Python exceptions the modelled code can raise. */
module Wrappers {

  datatype Option<+T> = None | Some(value: T)

  /** The exception classes that reach the modelled functions' callers. */
  datatype PyError =
    | IndexError   // a row with too few fields, `row[k]` out of range
    | ValueError   // `strptime` or `int()` rejected a field, `date.replace` built an invalid date
    | TypeError    // an operand of the wrong type, e.g. `None in str`
    | StoreError   // the storage client raised (download failure, missing file id)

  /** The value a Python call returns, or the exception it raises. */
  datatype Result<+T> = Ok(value: T) | Fail(error: PyError)
}
