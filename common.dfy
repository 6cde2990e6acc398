/** Failure-carrying wrappers shared by the monitor's components. */
module Common {

  datatype Option<+T> = None | Some(value: T)

  /** The outcome of an operation that may raise: either a value or the error it raised. */
  datatype Result<+T, +E> = Ok(value: T) | Err(error: E)

  /** `m.get(k, 0)` on a dictionary of counts: a missing key reads as zero. */
  function GetCount(m: map<string, nat>, k: string): nat
  {
    if k in m then m[k] else 0
  }
}
