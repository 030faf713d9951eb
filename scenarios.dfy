/** Client code: what a caller can conclude from the contracts of the two
    mappings alone. */
module Scenarios {
  import opened Keys
  import StrKeyDict0
  import StrKeyDict

  /** `StrKeyDict([(1, "one"), ("2", "two")])`. */
  method EagerFromPairs()
  {
    var one := Other(1, "1");
    var two := Other(2, "2");
    var d := new StrKeyDict.StrKeyDict<string>([(one, "one"), (S("2"), "two")]);
    StrKeyDict.ConstructedGetItem(d, [(one, "one"), (S("2"), "two")], 0);
    StrKeyDict.ConstructedGetItem(d, [(one, "one"), (S("2"), "two")], 1);
    StrKeyDict.BuiltKeys([(one, "one"), (S("2"), "two")]);
    assert d.data.Keys == {S("1"), S("2")};
    assert d.GetItem(one) == Ok("one");
    assert d.GetItem(S("1")) == Ok("one");
    assert d.GetItem(two) == Ok("two");
    assert d.Contains(one) && d.Contains(two);
    assert d.GetItem(S("3")) == Err(S("3"));
    assert d.GetItem(Other(3, "3")) == Err(S("3"));
    assert d.Get(S("3"), "none") == "none";
  }

  /** `StrKeyDict0([(1, "one"), ("2", "two")])`: the non-string key is stored
      verbatim, so its text form is not found. */
  method LazyFromPairs()
  {
    var one := Other(1, "1");
    var two := Other(2, "2");
    var d := new StrKeyDict0.StrKeyDict0<string>([(one, "one"), (S("2"), "two")]);
    StrKeyDict0.ConstructedGetItem(d, [(one, "one"), (S("2"), "two")], 0);
    StrKeyDict0.ConstructedGetItem(d, [(one, "one"), (S("2"), "two")], 1);
    StrKeyDict0.BuiltKeys([(one, "one"), (S("2"), "two")]);
    assert d.data.Keys == {one, S("2")};
    assert d.GetItem(one) == Ok("one");
    assert d.GetItem(two) == Ok("two");
    assert d.Contains(one) && d.Contains(two);
    assert d.GetItem(S("1")) == Err(S("1"));
    assert d.Get(S("1"), "none") == "none";
  }

  /** An empty mapping of either variant: a missing string key raises
      `KeyError` carrying it, and `get` falls back to the default. */
  method Empty()
  {
    var a := new StrKeyDict0.StrKeyDict0<int>([]);
    assert a.GetItem(S("missing")) == Err(S("missing"));
    assert a.Get(S("missing"), 0) == 0;
    var b := new StrKeyDict.StrKeyDict<int>([]);
    assert b.GetItem(S("missing")) == Err(S("missing"));
    assert b.Get(S("missing"), 0) == 0;
  }

  /** The same two insertions, `d[1] = "a"` then `d["1"] = "b"`, leave the
      variants answering `d[1]` differently. */
  method VariantsDiverge()
  {
    var one := Other(1, "1");
    var a := new StrKeyDict0.StrKeyDict0<string>([]);
    a.SetItem(one, "a");
    a.SetItem(S("1"), "b");
    var b := new StrKeyDict.StrKeyDict<string>([]);
    b.SetItem(one, "a");
    b.SetItem(S("1"), "b");
    assert a.GetItem(one) == Ok("a");
    assert b.GetItem(one) == Ok("b");
    assert |a.data| == 2 && |b.data| == 1;
  }
}
