# String-normalising dictionaries

A Dafny model of two small Python mappings in which a key `k` and its text
form `str(k)` name the same logical entry.

- `StrKeyDict0` (`chap3/strkeydict0.py`), the lazy variant, subclasses `dict`.
  Insertion is `dict`'s own, so keys are stored exactly as given. A lookup
  that misses on a non-string key is retried once with `str(key)` through
  `__missing__`. A miss on a string key raises `KeyError` at once. `get` is
  overridden so that it uses the same fallback. `key in d` checks both the key
  and its text form.
- `StrKeyDict` (`chap3/strkeydict.py`), the eager variant, subclasses
  `collections.UserDict`. `__setitem__` stores every value under `str(key)`,
  so every key of `self.data` is a string. `key in d` checks `str(key)` only.
  It has the same one-step `__missing__` fallback.

Files: `keys.dfy` (module `Keys`: the key type, `str()`, the lookup result),
`strkeydict0.dfy` (module `StrKeyDict0`), `strkeydict.dfy` (module
`StrKeyDict`), `scenarios.dfy` (client methods that build both mappings and
check lookups, membership, `get`, and how the two variants differ after the
same insertions).

Modelling choices:
- A key is `S(s)` for a Python `str`, or `Other(id, text)` for any other
  hashable object. `text` is whatever `str()` returns for that object and is
  left unconstrained. `ToStr(S(s)) == s` is the only fixed behaviour of `str()`.
- Each class keeps its table in a `map<Key, V>` field `data`. Insertion is a
  method that updates it. Lookup, `get` and membership are functions that only
  read it, so they cannot change the stored entries.
- `self[key]` returns `Result<V, Key>`: `Ok(value)`, or `Err(k)` for a
  `KeyError` carrying `k`. The inherited `__getitem__` and the `__missing__`
  override are two mutually recursive functions, `GetItem` and `Missing`. Their
  `decreases Rank(key), …` clause is the proof that the retry happens at most
  once: `str(key)` is a string, and a string key is never retried.
- The constructors take a sequence of pairs and insert them one by one, as
  `dict(pairs)` and `UserDict.__init__`/`update` do. `Built` in each module is
  the table that results.
- The eager class has the object invariant `Valid()`: every stored key is a
  string. The constructor establishes it and `SetItem` preserves it.

Notes on the code in `chap3/`:
- When a non-string `k` misses and `str(k)` also misses, the `KeyError`
  carries `str(k)`, not `k`: the retry `self[str(key)]` raises from inside
  `__missing__(str(key))` (`chap3/strkeydict0.py:12-14`,
  `chap3/strkeydict.py:14-16`). `GetItem` and `Missing` state this.
- In `StrKeyDict0`, inserting a non-string `k` does not make `str(k)`
  findable: after `d[1] = v`, `d["1"]` raises `KeyError`.
  `StrKeyDict0.StrKeyDict0.SetItem` states that such an insertion leaves the
  lookup of `str(k)` unchanged, and `Scenarios.LazyFromPairs` shows the case.
- In `StrKeyDict`, the retry at `chap3/strkeydict.py:16` is live: a
  non-string key is never stored, so its lookup always goes through
  `__missing__` to `str(key)`.

## Model

| member | source | states |
|---|---|---|
| Keys.ToStr | chap3/strkeydict0.py:14 | `str()` is the identity on string keys |
| Keys.StrKey | chap3/strkeydict.py:16 | the key `str(key)` is always a string key with the same text, and is the key itself for a string |
| Keys.FirstHit | chap3/strkeydict0.py:11-14 | looking keys up one after the other succeeds iff one of them is stored, gives the first key's value when it is stored, and otherwise raises `KeyError` carrying the last key tried |
| Keys.StrKeyIdempotent | chap3/strkeydict.py:22 | normalising a key twice gives the same key as normalising it once |
| StrKeyDict0.StrKeyDict0.constructor | chap3/strkeydict0.py:10 | `StrKeyDict0(pairs)` holds exactly the table of the pairs inserted in order, keys verbatim |
| StrKeyDict0.StrKeyDict0.SetItem | chap3/strkeydict0.py:10 | `d[k] = v` stores `v` under `k` itself, changes no other entry, grows the table by at most one, makes `d[k]` return `v` and `k in d` true, and leaves the lookup of `str(k)` as it was for a non-string `k` |
| StrKeyDict0.StrKeyDict0.GetItem | chap3/strkeydict0.py:11-14 | `d[k]` terminates, retrying at most once because `str(k)` is a string (its `decreases` clause); it is the first hit among the keys tried; it succeeds iff `k` or `str(k)` is stored; a stored `k` gives its own value; otherwise the value under `str(k)`; a `KeyError` always carries `str(k)`, which is `k` for a string |
| StrKeyDict0.StrKeyDict0.Missing | chap3/strkeydict0.py:11-14 | `__missing__` never recurses on a string key: it fails at once on a string key, and on any other key succeeds iff `str(key)` is stored, with that value; its `KeyError` carries `str(key)` |
| StrKeyDict0.StrKeyDict0.Tried | chap3/strkeydict0.py:11-14 | the keys `d[k]` tries are `k`, then `str(k)` exactly when a non-string `k` is not stored; never more than two |
| StrKeyDict0.StrKeyDict0.Get | chap3/strkeydict0.py:16-20 | `get(k, default)` never fails: it is the value `d[k]` returns when `k in d`, and `default` otherwise; a stored `k` wins over a stored `str(k)` |
| StrKeyDict0.StrKeyDict0.Contains | chap3/strkeydict0.py:22-23 | `k in d` holds iff `d[k]` succeeds |
| StrKeyDict0.MissFallsBackToTextForm | chap3/strkeydict0.py:11-14 | for a key that is not stored, `d[k]` and `d[str(k)]` give the same value or the same `KeyError` |
| StrKeyDict0.BuiltKeys | chap3/strkeydict0.py:10 | the keys of `StrKeyDict0(pairs)` are exactly the keys of the pairs |
| StrKeyDict0.BuiltLastWins | chap3/strkeydict0.py:10 | a pair not overwritten by a later pair with the same key gives the value stored for that key |
| StrKeyDict0.ConstructedContains | chap3/strkeydict0.py:22-23 | after `StrKeyDict0(pairs)`, `k in d` holds iff `k` or `str(k)` was one of the keys given |
| StrKeyDict0.ConstructedGetItem | chap3/strkeydict0.py:11-14 | after `StrKeyDict0(pairs)`, `d[k]` for a pair's key gives its value unless a later pair with the same key overwrote it |
| StrKeyDict.StrKeyDict.constructor | chap3/strkeydict.py:21-22 | `StrKeyDict(pairs)` holds only string keys and exactly the table of the pairs inserted in order through `__setitem__` |
| StrKeyDict.StrKeyDict.SetItem | chap3/strkeydict.py:21-22 | `d[k] = v` stores `v` under `str(k)`, changes no other entry, keeps every key a string, grows the table by at most one, and makes `d[k]` and `d[str(k)]` return `v` and `k in d` and `str(k) in d` true |
| StrKeyDict.StrKeyDict.GetItem | chap3/strkeydict.py:13-16 | `d[k]` terminates, retrying at most once because `str(k)` is a string (its `decreases` clause); it is the first hit among the keys tried; it succeeds iff `k` or `str(k)` is in `self.data`; a `KeyError` always carries `str(k)`; with all keys strings, it succeeds iff `str(k)` is stored and returns that value |
| StrKeyDict.StrKeyDict.Missing | chap3/strkeydict.py:13-16 | `__missing__` never recurses on a string key: it fails at once on a string key, and on any other key succeeds iff `str(key)` is stored, with that value; its `KeyError` carries `str(key)` |
| StrKeyDict.StrKeyDict.Tried | chap3/strkeydict.py:13-16 | the keys `d[k]` tries are `k`, then `str(k)` exactly when a non-string `k` is not stored; never more than two; with all keys strings, two exactly for a non-string `k` |
| StrKeyDict.StrKeyDict.Get | chap3/strkeydict.py:13-19 | `get(k, default)` is the value `d[k]` returns when `k in d`; with all keys strings, it is the value under `str(k)` or else `default` |
| StrKeyDict.StrKeyDict.Contains | chap3/strkeydict.py:18-19 | `k in d` implies `d[k]` succeeds, and with all keys strings the converse holds too |
| StrKeyDict.TextFormSameEntry | chap3/strkeydict.py:16-22 | with all keys strings, `k` and `str(k)` agree on membership and lookup, and `d[k] = v` and `d[str(k)] = v` produce the same table |
| StrKeyDict.BuiltAllStrKeys | chap3/strkeydict.py:22 | every table `StrKeyDict(pairs)` builds holds only string keys |
| StrKeyDict.BuiltKeys | chap3/strkeydict.py:22 | the keys of `StrKeyDict(pairs)` are exactly the text forms of the keys given |
| StrKeyDict.BuiltLastWins | chap3/strkeydict.py:22 | a pair not overwritten by a later pair with the same text form gives the value stored under its text form |
| StrKeyDict.ConstructedContains | chap3/strkeydict.py:18-22 | after `StrKeyDict(pairs)`, `k in d` holds iff some key given has the text form of `k`, and then `d[k]` succeeds |
| StrKeyDict.ConstructedGetItem | chap3/strkeydict.py:13-22 | after `StrKeyDict(pairs)`, `d[k]` and `d[str(k)]` for a pair's key give its value unless a later pair with the same text form overwrote it |

## Left out

- The concrete behaviour of `str()` on non-string objects: a key carries its
  text, unconstrained, and only `str(s) == s` on strings is fixed.
- Python hashing and equality quirks (`1`, `True` and `1.0` being one key),
  and subclasses of `str`.
- The rest of the `dict` and `UserDict` surface: iteration order, `len`,
  `__delitem__` (not normalised in `StrKeyDict`), `update` from a mapping or
  keyword arguments, `copy`, equality, `repr`. The constructors accept only a
  sequence of pairs.
- Writing to `self.data` from outside the class.
- StrKeyDict.StrKeyDict.SetItem: requires the all-string-keys invariant,
  which the constructor establishes and `SetItem` keeps. Direct writes to
  `self.data` and the inherited `|=` (`UserDict.__ior__` runs
  `self.data |= other` without `__setitem__`) can break it; both belong to
  the `UserDict` surface left out.
- `get` without a default: `default=None` is not modelled, so callers pass a
  default of the value type.
- StrKeyDict.StrKeyDict.Get: modelled as the `try`/`except` `get` inherited
  from `Mapping`; the `key in self` form of newer `UserDict.get` is covered
  only through the all-string-keys invariant, under which the two agree.
- Exception objects beyond the key a `KeyError` carries.
