/** A value that may be absent: a nullable column, a SELECT that finds no row, a nil error. */
module Wrappers {

  datatype Option<+T> = None | Some(value: T)

  /** The row stored under a key, if there is one. */
  function Lookup<K, V>(m: map<K, V>, k: K): (r: Option<V>) {
    if k in m then Some(m[k]) else None
  }
}
