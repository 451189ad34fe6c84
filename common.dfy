/** Shared value types of the IPO alerter model. */
module Common {

  /** A value that may be missing (a JSON key that is absent, a Python `None`). */
  datatype Option<+T> = None | Some(value: T)

  /** The value a Python call returns, or the exception it raises. */
  datatype Result<+T, +E> = Ok(value: T) | Err(error: E)

  /** The exceptions that escape a poll cycle: nothing in the cycle catches them. */
  datatype Exception =
    | KeyError(key: string)         // a raw record lacks a field that is read
    | HttpStatusError(status: int)  // `raise_for_status` on a non-2xx answer

  /** httpx's notion of a successful status (`raise_for_status` accepts exactly these). */
  predicate IsSuccess(status: int) {
    200 <= status < 300
  }
}
