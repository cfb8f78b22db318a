/** Failure-carrying datatypes shared by the model, and Python's sequence
    indexing rule (negative indices count from the end). */
module Common {

  datatype Option<+T> = None | Some(value: T)

  /** The value of an operation, or the exception it raises. */
  datatype Result<+T, +E> = Ok(value: T) | Err(error: E)

  /** An operation run for its effect: it passes or raises. */
  datatype Outcome<+E> = Pass | Fail(error: E)

  /** The position that `xs[i]` reads in a Python list or a NumPy vector
      of length `len`, or None when Python raises IndexError. */
  function PyIndex(i: int, len: nat): (r: Option<nat>)
    ensures r.Some? <==> -(len as int) <= i < len
    ensures r.Some? ==> r.value < len && (r.value == i || r.value == i + len)
  {
    if 0 <= i < len then Some(i)
    else if -(len as int) <= i < 0 then Some(i + len)
    else None
  }
}
