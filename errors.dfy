/**
  The two Python exceptions that the modelled formulas can raise on
  ordinary numeric input, and Python's list indexing, which accepts
  negative indices counted from the end.
*/
module Errors {

  datatype Error = ZeroDivisionError | IndexError

  datatype Result<T> = Ok(value: T) | Err(error: Error)

  /** `s[i]` as Python evaluates it on a list: indices 0 .. len-1 count from
      the front, -len .. -1 from the back, anything else raises IndexError. */
  function PyIndex<T>(s: seq<T>, i: int): Result<T>
  {
    if 0 <= i < |s| then Ok(s[i])
    else if -|s| <= i < 0 then Ok(s[|s| + i])
    else Err(IndexError)
  }
}
