/** Option and Result: the "value or nil" and "(value, error)" returns of the modelled code. */
module Wrappers {

  datatype Option<+T> = None | Some(value: T)

  /** The value if present, else `default`: a lookup with a fallback such as Python's
      `dict.get(key, default)`. */
  function GetOr<T>(o: Option<T>, default: T): (r: T)
    ensures o.Some? ==> r == o.value
    ensures o.None? ==> r == default
  {
    if o.Some? then o.value else default
  }

  /** A Go `(T, error)` pair or a Python value-or-failure: exactly one of the two is present. */
  datatype Result<+T, +E> = Ok(value: T) | Err(error: E)
}
