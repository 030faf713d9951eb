/** The lazy variant, `StrKeyDict0(dict)`: keys are stored exactly as given,
    and a lookup that misses on a non-string key is retried once with the
    key's text form. */
module StrKeyDict0 {
  import opened Keys

  /** The table `dict(pairs)` builds: pairs inserted in order, keys verbatim,
      a later pair overwriting an earlier one with the same key. */
  function Built<V>(pairs: seq<(Key, V)>): map<Key, V>
  {
    if pairs == [] then map[]
    else Built(pairs[..|pairs| - 1])[pairs[|pairs| - 1].0 := pairs[|pairs| - 1].1]
  }

  class StrKeyDict0<V> {
    /** The inherited `dict` storage. */
    var data: map<Key, V>

    /** `StrKeyDict0(pairs)`: the inherited `dict` constructor, inserting each
        pair in order. */
    constructor (pairs: seq<(Key, V)>)
      ensures data == Built(pairs)
    {
      data := map[];
      new;
      var i := 0;
      while i < |pairs|
        invariant 0 <= i <= |pairs|
        invariant data == Built(pairs[..i])
      {
        assert pairs[..i + 1][..i] == pairs[..i];
        SetItem(pairs[i].0, pairs[i].1);
        i := i + 1;
      }
      assert pairs[..i] == pairs;
    }

    /** `self[key] = value`, inherited from `dict`: the key is stored as given. */
    method SetItem(key: Key, value: V)
      modifies this
      ensures data == old(data)[key := value]
      ensures GetItem(key) == Ok(value) && Contains(key)
      ensures |data| <= |old(data)| + 1
      ensures !key.S? ==> GetItem(StrKey(key)) == old(GetItem(StrKey(key)))
    {
      data := data[key := value];
    }

    /** `self[key]`: `dict.__getitem__`, which calls `__missing__` on a miss. */
    function GetItem(key: Key): (r: Result<V, Key>)
      reads this
      decreases Rank(key), 1
      ensures r == FirstHit(data, Tried(key))
      ensures r.Ok? <==> key in data || StrKey(key) in data
      ensures key in data ==> r == Ok(data[key])
      ensures key !in data && StrKey(key) in data ==> r == Ok(data[StrKey(key)])
      ensures r.Err? ==> r.error == StrKey(key)
    {
      if key in data then Ok(data[key]) else Missing(key)
    }

    /** `__missing__`: a string key fails with `KeyError(key)`; any other key
        is looked up again as `str(key)`. */
    function Missing(key: Key): (r: Result<V, Key>)
      reads this
      decreases Rank(key), 0
      ensures r.Ok? <==> !key.S? && StrKey(key) in data
      ensures r.Ok? ==> r.value == data[StrKey(key)]
      ensures r.Err? ==> r.error == StrKey(key)
    {
      if key.S? then Err(key) else GetItem(StrKey(key))
    }

    /** The keys `self[key]` looks up in the table, in order: `key` itself,
        then `str(key)` only when a non-string key is not stored. */
    ghost function Tried(key: Key): (t: seq<Key>)
      reads this
      ensures 1 <= |t| <= 2 && t[0] == key
      ensures |t| == 2 <==> key !in data && !key.S?
      ensures |t| == 2 ==> t[1] == StrKey(key)
    {
      if key in data || key.S? then [key] else [key, StrKey(key)]
    }

    /** `get(key, default)`: `self[key]`, or `default` when that raises
        `KeyError`. */
    function Get(key: Key, default: V): (r: V)
      reads this
      ensures Contains(key) ==> GetItem(key) == Ok(r)
      ensures !Contains(key) ==> r == default
      ensures r == if key in data then data[key]
                   else if StrKey(key) in data then data[StrKey(key)]
                   else default
    {
      match GetItem(key)
      case Ok(v) => v
      case Err(_) => default
    }

    /** `key in self`: the key itself or its text form is a stored key. */
    function Contains(key: Key): (r: bool)
      reads this
      ensures r <==> GetItem(key).Ok?
    {
      key in data || StrKey(key) in data
    }
  }

  /** The keys of `dict(pairs)` are exactly the keys of the pairs. */
  lemma {:induction false} BuiltKeys<V>(pairs: seq<(Key, V)>)
    ensures Built(pairs).Keys == set i | 0 <= i < |pairs| :: pairs[i].0
  {
    if pairs != [] {
      var n := |pairs|;
      var init := pairs[..n - 1];
      BuiltKeys(init);
      assert forall i | 0 <= i < n - 1 :: init[i] == pairs[i];
      assert (set i | 0 <= i < |pairs| :: pairs[i].0)
          == (set i | 0 <= i < n - 1 :: init[i].0) + {pairs[n - 1].0};
    }
  }

  /** A pair that no later pair overwrites gives the value stored for its key. */
  lemma {:induction false} BuiltLastWins<V>(pairs: seq<(Key, V)>, i: nat)
    requires i < |pairs|
    requires forall j | i < j < |pairs| :: pairs[j].0 != pairs[i].0
    ensures pairs[i].0 in Built(pairs) && Built(pairs)[pairs[i].0] == pairs[i].1
  {
    var n := |pairs|;
    if i < n - 1 {
      var init := pairs[..n - 1];
      assert forall j | i < j < n - 1 :: init[j] == pairs[j];
      BuiltLastWins(init, i);
    }
  }

  /** After `StrKeyDict0(pairs)`, `key in d` holds exactly when the key or its
      text form was one of the keys given. */
  lemma ConstructedContains<V>(d: StrKeyDict0<V>, pairs: seq<(Key, V)>, key: Key)
    requires d.data == Built(pairs)
    ensures d.Contains(key) <==>
              exists i | 0 <= i < |pairs| :: pairs[i].0 == key || pairs[i].0 == StrKey(key)
  {
    BuiltKeys(pairs);
    if d.Contains(key) {
      var k :| k in {key, StrKey(key)} && k in d.data;
      var i :| 0 <= i < |pairs| && pairs[i].0 == k;
    }
  }

  /** A key that is not stored is looked up as its text form: `self[key]` and
      `self[str(key)]` then give the same value or the same `KeyError`. */
  lemma MissFallsBackToTextForm<V>(d: StrKeyDict0<V>, key: Key)
    requires key !in d.data
    ensures d.GetItem(key) == d.GetItem(StrKey(key))
  {
  }

  /** After `StrKeyDict0(pairs)`, looking up a pair's key gives that pair's
      value unless a later pair with the very same key overwrote it. */
  lemma ConstructedGetItem<V>(d: StrKeyDict0<V>, pairs: seq<(Key, V)>, i: nat)
    requires d.data == Built(pairs)
    requires i < |pairs|
    requires forall j | i < j < |pairs| :: pairs[j].0 != pairs[i].0
    ensures d.GetItem(pairs[i].0) == Ok(pairs[i].1)
  {
    BuiltLastWins(pairs, i);
  }
}
