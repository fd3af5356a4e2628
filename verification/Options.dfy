/** The usual optional value, for results the sources report as absent or null. */
module Options {

  datatype Option<+T> = None | Some(value: T)

  /** The value under `k`, as an option. */
  function Lookup<K, V>(m: map<K, V>, k: K): Option<V> {
    if k in m then Some(m[k]) else None
  }

  /** `m` with `k` bound to `v`, or unbound when `v` is `None`. */
  function Put<K, V>(m: map<K, V>, k: K, v: Option<V>): map<K, V> {
    match v
    case Some(x) => m[k := x]
    case None => m - {k}
  }
}
