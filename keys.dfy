/** Keys of the two string-normalising mappings, their text form, and the
    lookup result. */
module Keys {

  /** A dictionary key. `S(s)` is a Python `str`. `Other(id, text)` is any other
      hashable key: `id` tells distinct objects apart, and `text` is whatever
      `str()` returns for that object. Nothing else about `str()` is fixed. */
  datatype Key = S(s: string) | Other(id: int, text: string)

  /** Python's `str(key)`: the only behaviour fixed here is that it is the
      identity on strings. */
  function ToStr(k: Key): (t: string)
    ensures k.S? ==> t == k.s
  {
    match k
    case S(s) => s
    case Other(_, text) => text
  }

  /** The key `str(key)`, which is always a string key. */
  function StrKey(k: Key): (sk: Key)
    ensures sk.S? && ToStr(sk) == ToStr(k)
    ensures k.S? ==> sk == k
  {
    S(ToStr(k))
  }

  /** Termination measure of the `__missing__` retry: a string key cannot be
      retried, a non-string key is retried as a string key. */
  function Rank(k: Key): (n: nat)
    ensures n == 0 <==> k.S?
  {
    if k.S? then 0 else 1
  }

  /** A key and its text form name the same normalised key. */
  lemma StrKeyIdempotent(k: Key)
    ensures StrKey(StrKey(k)) == StrKey(k)
    ensures ToStr(StrKey(k)) == ToStr(k)
  {
  }

  /** Looking up `keys` in `m` one after the other: the value of the first
      key found, or else a `KeyError` carrying the last key tried. */
  function FirstHit<V>(m: map<Key, V>, keys: seq<Key>): (r: Result<V, Key>)
    requires |keys| > 0
    decreases |keys|
    ensures r.Ok? <==> exists i | 0 <= i < |keys| :: keys[i] in m
    ensures keys[0] in m ==> r == Ok(m[keys[0]])
    ensures r.Ok? ==> exists i | 0 <= i < |keys| :: keys[i] in m && r == Ok(m[keys[i]])
    ensures r.Err? ==> r.error == keys[|keys| - 1]
  {
    if keys[0] in m then Ok(m[keys[0]])
    else if |keys| == 1 then Err(keys[0])
    else FirstHit(m, keys[1..])
  }

  /** The outcome of `self[key]`: the value found, or the key a `KeyError`
      carries. */
  datatype Result<+T, +E> = Ok(value: T) | Err(error: E)
}
