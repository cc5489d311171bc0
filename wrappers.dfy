/** Option and Result, the two failure-carrying shapes the model uses for Go's
    `(value, error)` returns and for absent map keys. */
module Wrappers {

  datatype Option<+T> = None | Some(value: T) {
    function GetOr(default: T): T {
      match this
      case Some(v) => v
      case None => default
    }
  }

  datatype Result<+T, +E> = Ok(value: T) | Err(error: E)

  /** Go's `m[k]` on a `map[string]string`: the zero value "" for a missing key. */
  function Lookup(m: map<string, string>, k: string): string {
    if k in m then m[k] else ""
  }
}
