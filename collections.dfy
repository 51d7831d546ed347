/** Small helpers on sequences and dictionaries shared by the other modules. */
module Collections {

  /** `s[-1]`. */
  function Last<T>(s: seq<T>): T
    requires |s| > 0
  {
    s[|s| - 1]
  }

  /** `d.get(key, default)`. */
  function Get<K, V>(d: map<K, V>, key: K, default: V): V {
    if key in d then d[key] else default
  }
}
