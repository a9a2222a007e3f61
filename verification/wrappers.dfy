/** The optional-value datatype shared by the presence tracker and the /log command. */
module Wrappers {

  /** A value that may be missing: a nullable channel id, an unset slash-command option. */
  datatype Option<+T> = None | Some(value: T) {

    /** The wrapped value, or `default` when there is none (the `??` operator). */
    function GetOr(default: T): T {
      match this
      case Some(v) => v
      case None => default
    }
  }

  /** Map lookup as an optional value: `None` when the key is not in the map. */
  function Lookup<K, V>(m: map<K, V>, k: K): Option<V>
  {
    if k in m then Some(m[k]) else None
  }
}
