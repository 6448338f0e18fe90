/**
  Maya's `fileInfo`: the string-keyed table saved inside the scene, in which
  the exporter keeps one XML document per record under `prefix + name`.
  Keys are listed in the order they were first set; setting an existing key
  keeps its place.
*/
module Store {
  import opened Wrappers
  import opened PyCore
  import opened Xml

  /** A stored value: an XML document, or text that does not parse as one (such as a blank entry). */
  datatype Value = Doc(root: Element) | Raw(text: string)

  /** The table as a value: `keys` in the order `fileInfo.keys()` lists them. */
  datatype Table = Table(keys: seq<string>, vals: map<string, Value>)

  predicate Distinct(ks: seq<string>) {
    forall i, j | 0 <= i < j < |ks| :: ks[i] != ks[j]
  }

  /** Every key is listed exactly once and has a value. */
  predicate WellFormed(t: Table) {
    Distinct(t.keys) && (forall k | k in t.vals :: k in t.keys) && (forall k | k in t.keys :: k in t.vals)
  }

  /** `fileInfo[k] = v`. */
  function Set(t: Table, k: string, v: Value): (r: Table)
    ensures r.vals == t.vals[k := v]
    ensures k in t.vals ==> r.keys == t.keys
    ensures k !in t.vals ==> r.keys == t.keys + [k]
  {
    if k in t.vals then Table(t.keys, t.vals[k := v]) else Table(t.keys + [k], t.vals[k := v])
  }

  function Without(ks: seq<string>, k: string): (r: seq<string>)
    ensures forall x :: x in r <==> x in ks && x != k
    ensures |r| <= |ks|
  {
    if ks == [] then []
    else if ks[0] == k then Without(ks[1..], k)
    else [ks[0]] + Without(ks[1..], k)
  }

  /** `cmds.fileInfo(rm=k)` guarded by `k in fileInfo`: removing an absent key changes nothing. */
  function Delete(t: Table, k: string): (r: Table)
    ensures r.vals == t.vals - {k}
    ensures k !in t.vals ==> r == t
  {
    if k in t.vals then Table(Without(t.keys, k), t.vals - {k}) else t
  }

  lemma {:induction false} WithoutDistinct(ks: seq<string>, k: string)
    requires Distinct(ks)
    ensures Distinct(Without(ks, k))
    decreases |ks|
  {
    if ks != [] {
      assert forall j | 0 <= j < |ks| - 1 :: ks[1..][j] == ks[j + 1];
      WithoutDistinct(ks[1..], k);
      var r := Without(ks[1..], k);
      assert ks[0] !in ks[1..];
      if ks[0] != k {
        var full := [ks[0]] + r;
        assert forall j | 1 <= j < |full| :: full[j] == r[j - 1] && full[j] in r;
      }
    }
  }

  /** Setting a key keeps the table well formed and changes no other entry. */
  lemma SetWellFormed(t: Table, k: string, v: Value)
    requires WellFormed(t)
    ensures WellFormed(Set(t, k, v))
    ensures Set(t, k, v).vals[k] == v
    ensures forall x | x != k :: (x in Set(t, k, v).vals <==> x in t.vals)
    ensures forall x | x != k && x in t.vals :: Set(t, k, v).vals[x] == t.vals[x]
  {
  }

  /** Deleting a key keeps the table well formed, removes that key and changes no other entry. */
  lemma DeleteWellFormed(t: Table, k: string)
    requires WellFormed(t)
    ensures WellFormed(Delete(t, k))
    ensures k !in Delete(t, k).vals && k !in Delete(t, k).keys
    ensures forall x | x != k :: (x in Delete(t, k).vals <==> x in t.vals)
    ensures forall x | x != k && x in t.vals :: Delete(t, k).vals[x] == t.vals[x]
  {
    WithoutDistinct(t.keys, k);
  }

  /** The keys that contain `p`, in key order. */
  function KeysWith(ks: seq<string>, p: string): (r: seq<string>)
    ensures forall k :: k in r <==> k in ks && Contains(k, p)
    ensures |r| <= |ks|
  {
    if ks == [] then []
    else if Contains(ks[0], p) then [ks[0]] + KeysWith(ks[1..], p)
    else KeysWith(ks[1..], p)
  }

  lemma {:induction false} KeysWithDistinct(ks: seq<string>, p: string)
    requires Distinct(ks)
    ensures Distinct(KeysWith(ks, p))
    decreases |ks|
  {
    if ks != [] {
      KeysWithDistinct(ks[1..], p);
    }
  }

  lemma {:induction false} KeysWithAppend(ks: seq<string>, k: string, p: string)
    ensures KeysWith(ks + [k], p) == KeysWith(ks, p) + (if Contains(k, p) then [k] else [])
    decreases |ks|
  {
    if ks == [] {
      assert [] + [k] == [k];
    } else {
      assert (ks + [k])[1..] == ks[1..] + [k];
      KeysWithAppend(ks[1..], k, p);
    }
  }

  /**
    The table after `for r in rs: fileInfo[key(r)] = value(r)`, where working
    out an entry can raise: the entries before the failing one stay written.
  */
  function WriteAll<R>(t: Table, rs: seq<R>, entry: R -> Result<(string, Value), Fault>): (Table, Result<(), Fault>)
    decreases |rs|
  {
    if rs == [] then (t, Ok(()))
    else
      match entry(rs[0])
      case Err(f) => (t, Err(f))
      case Ok(kv) => WriteAll(Set(t, kv.0, kv.1), rs[1..], entry)
  }

  /** A write succeeds exactly when every entry can be worked out. */
  lemma {:induction false} WriteAllOk<R>(t: Table, rs: seq<R>, entry: R -> Result<(string, Value), Fault>)
    ensures WriteAll(t, rs, entry).1.Ok? <==> forall i | 0 <= i < |rs| :: entry(rs[i]).Ok?
    decreases |rs|
  {
    if rs != [] && entry(rs[0]).Ok? {
      var kv := entry(rs[0]).value;
      WriteAllOk(Set(t, kv.0, kv.1), rs[1..], entry);
      assert forall i | 1 <= i < |rs| :: rs[i] == rs[1..][i - 1];
    }
  }

  /** Whether `k` is the key of one of the entries `rs` produces. */
  predicate KeyOf<R>(rs: seq<R>, entry: R -> Result<(string, Value), Fault>, k: string) {
    exists i | 0 <= i < |rs| :: entry(rs[i]).Ok? && entry(rs[i]).value.0 == k
  }

  /** Writing keeps the table well formed and touches no key that is not one of the records' keys. */
  lemma {:induction false} WriteAllFrame<R>(t: Table, rs: seq<R>, entry: R -> Result<(string, Value), Fault>)
    requires WellFormed(t)
    ensures WellFormed(WriteAll(t, rs, entry).0)
    ensures forall k | !KeyOf(rs, entry, k) ::
      (k in WriteAll(t, rs, entry).0.vals <==> k in t.vals) &&
      (k in t.vals ==> WriteAll(t, rs, entry).0.vals[k] == t.vals[k])
    decreases |rs|
  {
    if rs != [] && entry(rs[0]).Ok? {
      var kv := entry(rs[0]).value;
      SetWellFormed(t, kv.0, kv.1);
      WriteAllFrame(Set(t, kv.0, kv.1), rs[1..], entry);
      forall k | !KeyOf(rs, entry, k)
        ensures !KeyOf(rs[1..], entry, k) && k != kv.0
      {
        assert forall i | 0 <= i < |rs| - 1 :: rs[1..][i] == rs[i + 1];
      }
    }
  }

  /**
    After a successful write every record's key holds that record's value,
    unless a later record has the same key (the later one is written over it).
  */
  lemma {:induction false} WriteAllWritten<R>(t: Table, rs: seq<R>, entry: R -> Result<(string, Value), Fault>, i: nat)
    requires WellFormed(t)
    requires forall j | 0 <= j < |rs| :: entry(rs[j]).Ok?
    requires i < |rs|
    requires forall j | i < j < |rs| :: entry(rs[j]).value.0 != entry(rs[i]).value.0
    ensures entry(rs[i]).value.0 in WriteAll(t, rs, entry).0.vals
    ensures WriteAll(t, rs, entry).0.vals[entry(rs[i]).value.0] == entry(rs[i]).value.1
    decreases |rs|
  {
    var kv := entry(rs[0]).value;
    SetWellFormed(t, kv.0, kv.1);
    if i == 0 {
      var k := kv.0;
      assert forall j | 0 <= j < |rs| - 1 :: rs[1..][j] == rs[j + 1];
      WriteAllFrame(Set(t, kv.0, kv.1), rs[1..], entry);
    } else {
      assert forall j | 0 <= j < |rs| - 1 :: rs[1..][j] == rs[j + 1];
      WriteAllWritten(Set(t, kv.0, kv.1), rs[1..], entry, i - 1);
    }
  }

  /** `[read(k, fileInfo[k]) for k in ks]`, stopping at the first record that raises. */
  function ReadAll<R>(t: Table, ks: seq<string>, read: (string, Value) -> Result<R, Fault>): (r: Result<seq<R>, Fault>)
    requires forall k | k in ks :: k in t.vals
    ensures r.Ok? <==> forall i | 0 <= i < |ks| :: read(ks[i], t.vals[ks[i]]).Ok?
    ensures r.Ok? ==> |r.value| == |ks|
    ensures r.Ok? ==> forall i | 0 <= i < |ks| :: read(ks[i], t.vals[ks[i]]) == Ok(r.value[i])
    decreases |ks|
  {
    if ks == [] then Ok([])
    else
      match read(ks[0], t.vals[ks[0]])
      case Err(f) => Err(f)
      case Ok(x) =>
        match ReadAll(t, ks[1..], read)
        case Err(f) =>
          assert exists i | 0 <= i < |ks| - 1 :: read(ks[1..][i], t.vals[ks[1..][i]]).Err?;
          Err(f)
        case Ok(xs) =>
          assert forall i | 1 <= i < |ks| :: ks[i] == ks[1..][i - 1];
          Ok([x] + xs)
  }

  /** A read stops with the error of the first record that raises. */
  lemma {:induction false} ReadAllFirstErr<R>(t: Table, ks: seq<string>, read: (string, Value) -> Result<R, Fault>, i: nat)
    requires forall k | k in ks :: k in t.vals
    requires i < |ks| && forall j | 0 <= j < i :: read(ks[j], t.vals[ks[j]]).Ok?
    requires read(ks[i], t.vals[ks[i]]).Err?
    ensures ReadAll(t, ks, read) == Err(read(ks[i], t.vals[ks[i]]).error)
    decreases i
  {
    if i > 0 {
      assert forall j | 0 <= j < |ks| - 1 :: ks[1..][j] == ks[j + 1];
      ReadAllFirstErr(t, ks[1..], read, i - 1);
    }
  }

  /**
    `[read(k, fileInfo[k]) for k in get_valid_keys_from_fileInfo(p)]`: every
    record whose key contains the prefix, in key order.
  */
  function Build<R>(t: Table, p: string, read: (string, Value) -> Result<R, Fault>): Result<seq<R>, Fault>
    requires WellFormed(t)
  {
    ReadAll(t, KeysWith(t.keys, p), read)
  }

  /** The `fileInfo` table of the open scene, updated in place. */
  class FileInfo {
    var keys: seq<string>
    var vals: map<string, Value>

    ghost predicate Valid()
      reads this
    {
      WellFormed(Table(keys, vals))
    }

    function State(): Table
      reads this
    {
      Table(keys, vals)
    }

    /** The table of a new scene: empty. */
    constructor ()
      ensures Valid() && State() == Table([], map[])
    {
      keys := [];
      vals := map[];
    }

    /** `fileInfo[k] = v`. */
    method SetItem(k: string, v: Value)
      requires Valid()
      modifies this
      ensures Valid()
      ensures State() == Set(old(State()), k, v)
    {
      SetWellFormed(State(), k, v);
      if k !in vals {
        keys := keys + [k];
      }
      vals := vals[k := v];
    }

    /** `if k in fileInfo: cmds.fileInfo(rm=k)`. */
    method Remove(k: string)
      requires Valid()
      modifies this
      ensures Valid()
      ensures State() == Delete(old(State()), k)
    {
      DeleteWellFormed(State(), k);
      if k in vals {
        keys := Without(keys, k);
        vals := vals - {k};
      }
    }
  }
}
