/** Option and Result values standing in for Python's `None` and raised exceptions. */
module Wrappers {

  datatype Option<+T> = None | Some(value: T) {
    function GetOr(default: T): T {
      match this
      case Some(v) => v
      case None => default
    }

    predicate IsFailure() { None? }

    function PropagateFailure<U>(): Option<U>
      requires None?
    {
      None
    }

    function Extract(): T
      requires Some?
    {
      value
    }
  }

  /** The exception classes the modelled code can raise. */
  datatype Error =
    | ValueError      // tuple unpacking of a list that is not a pair; list.remove of an absent item
    | TypeError       // list(None)
    | FileNotFound    // open() of a file that does not exist

  datatype Result<+T> = Ok(value: T) | Err(error: Error)

  /** dict.get(key) of Python. */
  function Get<K, V>(m: map<K, V>, k: K): (r: Option<V>)
    ensures r.Some? <==> k in m
    ensures r.Some? ==> r.value == m[k]
  {
    if k in m then Some(m[k]) else None
  }
}
