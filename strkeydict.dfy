/** The eager variant, `StrKeyDict(UserDict)`: every insertion stores the
    value under `str(key)`, so the table only ever holds string keys. */
module StrKeyDict {
  import opened Keys

  /** Every stored key is a string. */
  ghost predicate AllStrKeys<V>(m: map<Key, V>)
  {
    forall k | k in m :: k.S?
  }

  /** The table `StrKeyDict(pairs)` builds: pairs inserted in order through
      `__setitem__`, a later pair overwriting an earlier one with the same
      text form. */
  function Built<V>(pairs: seq<(Key, V)>): map<Key, V>
  {
    if pairs == [] then map[]
    else Built(pairs[..|pairs| - 1])[StrKey(pairs[|pairs| - 1].0) := pairs[|pairs| - 1].1]
  }

  class StrKeyDict<V> {
    /** `self.data`, the wrapped `dict`. */
    var data: map<Key, V>

    ghost predicate Valid()
      reads this
    {
      AllStrKeys(data)
    }

    /** `StrKeyDict(pairs)`: `UserDict.__init__` starts from an empty table and
        `update` inserts each pair with `self[key] = value`. */
    constructor (pairs: seq<(Key, V)>)
      ensures Valid() && data == Built(pairs)
    {
      data := map[];
      new;
      var i := 0;
      while i < |pairs|
        invariant 0 <= i <= |pairs|
        invariant Valid() && data == Built(pairs[..i])
      {
        assert pairs[..i + 1][..i] == pairs[..i];
        SetItem(pairs[i].0, pairs[i].1);
        i := i + 1;
      }
      assert pairs[..i] == pairs;
    }

    /** `__setitem__`: the value is stored under `str(key)`. */
    method SetItem(key: Key, value: V)
      requires Valid()
      modifies this
      ensures Valid()
      ensures data == old(data)[StrKey(key) := value]
      ensures GetItem(key) == Ok(value) && GetItem(StrKey(key)) == Ok(value)
      ensures Contains(key) && Contains(StrKey(key))
      ensures |data| <= |old(data)| + 1
    {
      data := data[StrKey(key) := value];
    }

    /** `self[key]`: `UserDict.__getitem__` returns `self.data[key]` when the
        key is stored and otherwise calls `__missing__`. */
    function GetItem(key: Key): (r: Result<V, Key>)
      reads this
      decreases Rank(key), 1
      ensures r == FirstHit(data, Tried(key))
      ensures r.Ok? <==> key in data || StrKey(key) in data
      ensures key in data ==> r == Ok(data[key])
      ensures key !in data && StrKey(key) in data ==> r == Ok(data[StrKey(key)])
      ensures r.Err? ==> r.error == StrKey(key)
      ensures Valid() ==> (r.Ok? <==> StrKey(key) in data)
      ensures Valid() && r.Ok? ==> r.value == data[StrKey(key)]
    {
      if key in data then Ok(data[key]) else Missing(key)
    }

    /** `__missing__`: a string key fails with `KeyError(key)`; any other key
        is looked up again as `str(key)`. */
    function Missing(key: Key): (r: Result<V, Key>)
      reads this
      decreases Rank(key), 0
      ensures r.Ok? <==> !key.S? && StrKey(key) in data
      ensures r.Ok? ==> r.value == data[StrKey(key)]
      ensures r.Err? ==> r.error == StrKey(key)
    {
      if key.S? then Err(key) else GetItem(StrKey(key))
    }

    /** The keys `self[key]` looks up in the table, in order: `key` itself,
        then `str(key)` only when a non-string key is not stored. */
    ghost function Tried(key: Key): (t: seq<Key>)
      reads this
      ensures 1 <= |t| <= 2 && t[0] == key
      ensures |t| == 2 <==> key !in data && !key.S?
      ensures |t| == 2 ==> t[1] == StrKey(key)
      ensures Valid() ==> (|t| == 2 <==> !key.S?)
    {
      if key in data || key.S? then [key] else [key, StrKey(key)]
    }

    /** `get(key, default)`, inherited from `Mapping.get`: `self[key]`, or
        `default` when that raises `KeyError`. */
    function Get(key: Key, default: V): (r: V)
      reads this
      ensures Contains(key) ==> GetItem(key) == Ok(r)
      ensures Valid() ==> r == if StrKey(key) in data then data[StrKey(key)] else default
    {
      match GetItem(key)
      case Ok(v) => v
      case Err(_) => default
    }

    /** `key in self`: `str(key)` is a key of `self.data`. */
    function Contains(key: Key): (r: bool)
      reads this
      ensures r ==> GetItem(key).Ok?
      ensures Valid() ==> (r <==> GetItem(key).Ok?)
    {
      StrKey(key) in data
    }
  }

  /** A key and its text form are the same entry: membership, lookup and
      insertion cannot tell them apart. */
  lemma TextFormSameEntry<V>(d: StrKeyDict<V>, key: Key, value: V)
    requires d.Valid()
    ensures d.Contains(key) == d.Contains(StrKey(key))
    ensures d.GetItem(key) == d.GetItem(StrKey(key))
    ensures d.data[StrKey(key) := value] == d.data[StrKey(StrKey(key)) := value]
  {
  }

  /** Every table `StrKeyDict(pairs)` builds holds only string keys. */
  lemma {:induction false} BuiltAllStrKeys<V>(pairs: seq<(Key, V)>)
    ensures AllStrKeys(Built(pairs))
  {
    if pairs != [] {
      BuiltAllStrKeys(pairs[..|pairs| - 1]);
    }
  }

  /** The keys of `StrKeyDict(pairs)` are exactly the text forms of the keys
      given. */
  lemma {:induction false} BuiltKeys<V>(pairs: seq<(Key, V)>)
    ensures Built(pairs).Keys == set i | 0 <= i < |pairs| :: StrKey(pairs[i].0)
  {
    if pairs != [] {
      var n := |pairs|;
      var init := pairs[..n - 1];
      BuiltKeys(init);
      assert forall i | 0 <= i < n - 1 :: init[i] == pairs[i];
      assert (set i | 0 <= i < |pairs| :: StrKey(pairs[i].0))
          == (set i | 0 <= i < n - 1 :: StrKey(init[i].0)) + {StrKey(pairs[n - 1].0)};
    }
  }

  /** A pair that no later pair with the same text form overwrites gives the
      value stored for that text form. */
  lemma {:induction false} BuiltLastWins<V>(pairs: seq<(Key, V)>, i: nat)
    requires i < |pairs|
    requires forall j | i < j < |pairs| :: ToStr(pairs[j].0) != ToStr(pairs[i].0)
    ensures StrKey(pairs[i].0) in Built(pairs)
    ensures Built(pairs)[StrKey(pairs[i].0)] == pairs[i].1
  {
    var n := |pairs|;
    if i < n - 1 {
      var init := pairs[..n - 1];
      assert forall j | i < j < n - 1 :: init[j] == pairs[j];
      BuiltLastWins(init, i);
    }
  }

  /** After `StrKeyDict(pairs)`, `key in d` holds exactly when some key given
      has the same text form, and then `d[key]` succeeds. */
  lemma ConstructedContains<V>(d: StrKeyDict<V>, pairs: seq<(Key, V)>, key: Key)
    requires d.data == Built(pairs)
    ensures d.Valid()
    ensures d.Contains(key) <==> exists i | 0 <= i < |pairs| :: ToStr(pairs[i].0) == ToStr(key)
    ensures d.Contains(key) <==> d.GetItem(key).Ok?
  {
    BuiltAllStrKeys(pairs);
    BuiltKeys(pairs);
    if d.Contains(key) {
      var i :| 0 <= i < |pairs| && StrKey(pairs[i].0) == StrKey(key);
    }
  }

  /** After `StrKeyDict(pairs)`, looking up a pair's key, or its text form,
      gives that pair's value unless a later pair with the same text form
      overwrote it. */
  lemma ConstructedGetItem<V>(d: StrKeyDict<V>, pairs: seq<(Key, V)>, i: nat)
    requires d.data == Built(pairs)
    requires i < |pairs|
    requires forall j | i < j < |pairs| :: ToStr(pairs[j].0) != ToStr(pairs[i].0)
    ensures d.GetItem(pairs[i].0) == Ok(pairs[i].1)
    ensures d.GetItem(StrKey(pairs[i].0)) == Ok(pairs[i].1)
  {
    BuiltAllStrKeys(pairs);
    BuiltLastWins(pairs, i);
  }
}
