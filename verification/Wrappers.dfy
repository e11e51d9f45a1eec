/** Shared result types: an optional value, and the outcome of an operation that may throw. */
module Wrappers {
  datatype Option<+T> = None | Some(value: T)
  {
    function GetOr(default: T): T {
      match this
      case Some(v) => v
      case None => default
    }

    function OrElse(other: Option<T>): Option<T> { if Some? then this else other }
  }

  datatype Result<+T, +E> = Ok(value: T) | Err(error: E)

  function Get<K, V>(m: map<K, V>, key: K): Option<V> { if key in m then Some(m[key]) else None }
}
