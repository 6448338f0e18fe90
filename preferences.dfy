/**
  The dictionary logic of the preference utilities (`preferenceutilities.py`).
  The preference file is the dictionary it holds: `None` when the file does
  not exist. Reading and parsing the file and writing the JSON text are left
  out; `writePrefs` answers the dictionary it would write.
*/
module Preferences {
  import opened Wrappers

  /** A JSON value; numbers are integers. Python's `None` is `JNull`. */
  datatype Json =
    | JNull
    | JBool(b: bool)
    | JNumber(n: int)
    | JString(s: string)
    | JArray(items: seq<Json>)
    | JObject(fields: map<string, Json>)

  type Prefs = map<string, Json>

  /** `readPrefs()`: the stored dictionary, or an empty one when there is no preference file. */
  function ReadPrefs(stored: Option<Prefs>): (p: Prefs)
    ensures stored.None? ==> p == map[]
    ensures stored.Some? ==> p == stored.value
  {
    match stored
    case None => map[]
    case Some(prefs) => prefs
  }

  /** `readPrefsKey(key, noKeyVal)`: the stored value for `key`, or `noKeyVal` when it is not stored. */
  function ReadPrefsKey(stored: Option<Prefs>, key: string, noKeyVal: Json): (v: Json)
    ensures key in ReadPrefs(stored) ==> v == ReadPrefs(stored)[key]
    ensures key !in ReadPrefs(stored) ==> v == noKeyVal
  {
    var prefs := ReadPrefs(stored);
    if key in prefs then prefs[key] else noKeyVal
  }

  /**
    Following `keys` into `root`, one dictionary level per key; a missing
    key or a value that is not a dictionary gives `None`.
  */
  function NestedLookup(root: Json, keys: seq<string>): Json
    decreases |keys|
  {
    if keys == [] then root
    else
      var v := NestedLookup(root, keys[..|keys| - 1]);
      var key := keys[|keys| - 1];
      if v.JObject? && key in v.fields then v.fields[key] else JNull
  }

  /** Nothing can be looked up below `None`. */
  lemma {:induction false} NullStaysNull(keys: seq<string>)
    ensures NestedLookup(JNull, keys) == JNull
    decreases |keys|
  {
    if keys != [] {
      NullStaysNull(keys[..|keys| - 1]);
    }
  }

  /** Following `a` and then `b` is following `a + b`. */
  lemma {:induction false} NestedLookupAppend(root: Json, a: seq<string>, b: seq<string>)
    ensures NestedLookup(root, a + b) == NestedLookup(NestedLookup(root, a), b)
    decreases |b|
  {
    if b == [] {
      assert a + b == a;
    } else {
      var n := |b| - 1;
      NestedLookupAppend(root, a, b[..n]);
      assert (a + b)[..|a + b| - 1] == a + b[..n];
      assert (a + b)[|a + b| - 1] == b[n];
    }
  }

  /** Once a step misses, the whole lookup is `None`, however many keys follow. */
  lemma NestedLookupMisses(root: Json, keys: seq<string>, i: nat)
    requires i < |keys|
    requires var v := NestedLookup(root, keys[..i]); !(v.JObject? && keys[i] in v.fields)
    ensures NestedLookup(root, keys) == JNull
  {
    assert keys[..i + 1][..i] == keys[..i];
    NestedLookupAppend(root, keys[..i + 1], keys[i + 1..]);
    assert keys[..i + 1] + keys[i + 1..] == keys;
    NullStaysNull(keys[i + 1..]);
  }

  /**
    `readPrefsNestedKey(*keys)`: the value reached by following `keys` from
    the stored dictionary, the whole dictionary when there are no keys, and
    `None` at the first step that fails.
  */
  method ReadPrefsNestedKey(stored: Option<Prefs>, keys: seq<string>) returns (v: Json)
    ensures v == NestedLookup(JObject(ReadPrefs(stored)), keys)
    ensures keys == [] ==> v == JObject(ReadPrefs(stored))
  {
    var root := JObject(ReadPrefs(stored));
    v := root;
    var i := 0;
    while i < |keys|
      invariant 0 <= i <= |keys|
      invariant v == NestedLookup(root, keys[..i])
    {
      assert keys[..i + 1][..i] == keys[..i];
      if !(v.JObject? && keys[i] in v.fields) {
        NestedLookupMisses(root, keys, i);
        return JNull;
      }
      v := v.fields[keys[i]];
      i := i + 1;
    }
    assert keys[..i] == keys;
  }

  /**
    The key loop of `writePrefs` over the stored dictionary: a listed key
    takes its value from `prefs`, or is deleted when `prefs` lacks it; an
    unlisted key keeps its stored value, and a new unlisted key in `prefs`
    is dropped.
  */
  function Merge(prefs: Prefs, keys: seq<string>, stored: Prefs): (r: Prefs)
    ensures forall k | k in keys && k in prefs :: k in r && r[k] == prefs[k]
    ensures forall k | k in keys && k !in prefs :: k !in r
    ensures forall k | k !in keys :: (k in r <==> k in stored) && (k in stored ==> r[k] == stored[k])
    decreases |keys|
  {
    if keys == [] then stored
    else
      var init := keys[..|keys| - 1];
      var key := keys[|keys| - 1];
      var m := Merge(prefs, init, stored);
      assert forall k :: k in keys <==> k in init || k == key by {
        assert keys == init + [key];
      }
      if key !in prefs then m - {key} else m[key := prefs[key]]
  }

  /**
    `writePrefs(prefs, keys)`: the dictionary written to the preference
    file. With no keys, `prefs` as given; with keys, the stored dictionary
    merged with `prefs` on those keys.
  */
  method WritePrefs(stored: Option<Prefs>, prefs: Prefs, keys: seq<string>) returns (written: Prefs)
    ensures keys == [] ==> written == prefs
    ensures keys != [] ==> written == Merge(prefs, keys, ReadPrefs(stored))
  {
    if keys == [] {
      return prefs;
    }
    var oldPrefs := ReadPrefs(stored);
    var i := 0;
    while i < |keys|
      invariant 0 <= i <= |keys|
      invariant oldPrefs == Merge(prefs, keys[..i], ReadPrefs(stored))
    {
      assert keys[..i + 1][..i] == keys[..i] && keys[..i + 1][i] == keys[i];
      var key := keys[i];
      if key !in prefs {
        if key in oldPrefs {
          oldPrefs := oldPrefs - {key};
        } else {
          assert oldPrefs - {key} == oldPrefs;
        }
      } else {
        oldPrefs := oldPrefs[key := prefs[key]];
      }
      i := i + 1;
    }
    assert keys[..i] == keys;
    written := oldPrefs;
  }
}
