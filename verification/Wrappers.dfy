/** The two result shapes used across the model. */
module Wrappers {

  /** A value the source types as `T | undefined`. */
  datatype Option<+T> = None | Some(value: T)

  /** A call that either returns or throws. */
  datatype Result<+T, +E> = Success(value: T) | Failure(error: E)

  /** `m.get(k)` */
  function Get<K(==), V>(m: map<K, V>, k: K): Option<V> {
    if k in m then Some(m[k]) else None
  }
}
