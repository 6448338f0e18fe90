/**
  The exporter's own rules (`fbx_exporter_export.py`): stripping Maya's DAG
  path from a name, pruning export items that are not in the scene, zeroing
  and restoring transforms around a model export, and the selection and
  target path of rig and animation exports. Maya's scene is a map from node
  name to transform matrix, and the FBX calls are recorded rather than run.
*/
module Export {
  import opened Wrappers
  import opened PyCore
  import opened Records

  // ---------------------------------------------------------------------
  // remove_pipe

  /** `s.split(c)` for a one-character separator: the pieces between the occurrences of `c`. */
  function SplitOn(s: string, c: char): (r: seq<string>)
    ensures |r| > 0
    ensures c !in s ==> r == [s]
    ensures c in s ==> |r| > 1
    ensures forall x | x in r :: c !in x
    decreases |s|
  {
    if s == [] then [""]
    else
      var rest := SplitOn(s[1..], c);
      if s[0] == c then [""] + rest
      else
        assert c !in s[1..] ==> [[s[0]] + rest[0]] + rest[1..] == [s] by {
          if c !in s[1..] {
            assert s == [s[0]] + s[1..];
          }
        }
        [[s[0]] + rest[0]] + rest[1..]
  }

  /** The last piece of `s.split(c)` is the text after the last `c`, or all of `s` when it has none. */
  lemma {:induction false} LastPieceAfterLast(s: string, c: char)
    ensures var r := SplitOn(s, c); var p := r[|r| - 1];
      |p| <= |s| && p == s[|s| - |p|..] && c !in p && (|p| < |s| ==> s[|s| - |p| - 1] == c)
    decreases |s|
  {
    if s != [] {
      var rest := SplitOn(s[1..], c);
      var q := rest[|rest| - 1];
      LastPieceAfterLast(s[1..], c);
      SuffixOfTail(s, q, c);
      if s[0] == c {
        LastPieceAtSep(s, c);
      } else if |rest| > 1 {
        LastPieceJoined(s, c);
        assert |q| < |s| - 1 by {
          assert c in s[1..];
          assert q != s[1..];
        }
      } else {
        LastPieceWhole(s, c);
      }
    }
  }

  /** After a leading separator, the last piece is the tail's last piece. */
  lemma LastPieceAtSep(s: string, c: char)
    requires s != [] && s[0] == c
    ensures var r := SplitOn(s, c); var rest := SplitOn(s[1..], c); r[|r| - 1] == rest[|rest| - 1]
  {
    SplitAtSep(s, c);
    LastOfConcat([""], SplitOn(s[1..], c));
  }

  /** After another character, the last piece is the tail's last piece when the tail holds `c`. */
  lemma LastPieceJoined(s: string, c: char)
    requires s != [] && s[0] != c && |SplitOn(s[1..], c)| > 1
    ensures var r := SplitOn(s, c); var rest := SplitOn(s[1..], c); r[|r| - 1] == rest[|rest| - 1]
  {
    var rest := SplitOn(s[1..], c);
    SplitJoined(s, c);
    LastOfConcat([[s[0]] + rest[0]], rest[1..]);
    assert rest[1..][|rest[1..]| - 1] == rest[|rest| - 1];
  }

  /** With no `c` after a leading other character, the one piece is all of `s`. */
  lemma LastPieceWhole(s: string, c: char)
    requires s != [] && s[0] != c && |SplitOn(s[1..], c)| <= 1
    ensures var r := SplitOn(s, c); r[|r| - 1] == s && c !in s
  {
    assert c !in s[1..];
    assert c !in s by {
      assert s == [s[0]] + s[1..];
    }
  }

  /** `SplitOn` at a leading separator: an empty first piece. */
  lemma SplitAtSep(s: string, c: char)
    requires s != [] && s[0] == c
    ensures SplitOn(s, c) == [""] + SplitOn(s[1..], c)
  {
  }

  /** `SplitOn` at a leading other character: it joins the tail's first piece. */
  lemma SplitJoined(s: string, c: char)
    requires s != [] && s[0] != c
    ensures var rest := SplitOn(s[1..], c); SplitOn(s, c) == [[s[0]] + rest[0]] + rest[1..]
  {
  }

  /** The last element of `a + b` is the last of `b`. */
  lemma LastOfConcat<T>(a: seq<T>, b: seq<T>)
    requires b != []
    ensures (a + b)[|a + b| - 1] == b[|b| - 1]
  {
  }

  /** A suffix `q` of `s[1..]` is a suffix of `s`, and what precedes it there precedes it in `s`. */
  lemma SuffixOfTail(s: string, q: string, c: char)
    requires s != [] && |q| <= |s| - 1 && q == s[1..][|s| - 1 - |q|..]
    requires |q| < |s| - 1 ==> s[1..][|s| - 1 - |q| - 1] == c
    ensures q == s[|s| - |q|..]
    ensures |q| < |s| - 1 ==> s[|s| - |q| - 1] == c
  {
    assert s[1..][|s| - 1 - |q|..] == s[|s| - |q|..];
    if |q| < |s| - 1 {
      assert s[1..][|s| - 1 - |q| - 1] == s[|s| - |q| - 1];
    }
  }

  /**
    `remove_pipe(name)`: Maya prefixes a node name with its DAG path to keep
    it unique; the name proper is the text after the last `'|'`.
  */
  function RemovePipe(name: string): (r: string)
    ensures '|' !in r
    ensures |r| <= |name| && r == name[|name| - |r|..]
    ensures '|' !in name ==> r == name
    ensures '|' in name ==> |r| < |name| && name[|name| - |r| - 1] == '|'
  {
    if '|' in name then
      var pieces := SplitOn(name, '|');
      LastPieceAfterLast(name, '|');
      pieces[|pieces| - 1]
    else name
  }

  /** Stripping the path a second time changes nothing. */
  lemma RemovePipeIdempotent(name: string)
    ensures RemovePipe(RemovePipe(name)) == RemovePipe(name)
  {
  }

  // ---------------------------------------------------------------------
  // test_models_exist

  /** The items the existence test accepts, in their order. */
  function Kept(xs: seq<string>, present: string -> bool): (r: seq<string>)
    ensures |r| <= |xs|
    ensures forall x :: x in r <==> x in xs && present(x)
    decreases |xs|
  {
    if xs == [] then []
    else (if present(xs[0]) then [xs[0]] else []) + Kept(xs[1..], present)
  }

  /** The items the existence test rejects, in their order and with their repeats: the `missing` list. */
  function Missing(xs: seq<string>, present: string -> bool): (r: seq<string>)
    ensures |r| <= |xs|
    ensures forall x :: x in r <==> x in xs && !present(x)
    decreases |xs|
  {
    if xs == [] then []
    else (if present(xs[0]) then [] else [xs[0]]) + Missing(xs[1..], present)
  }

  /** `xs.remove(x)`: drops the first occurrence of `x`; an absent item raises ValueError. */
  function RemoveFirst(xs: seq<string>, x: string): (r: Result<seq<string>, Fault>)
    ensures r.Ok? <==> x in xs
    ensures r.Ok? ==> |r.value| == |xs| - 1 && multiset(r.value) == multiset(xs) - multiset{x}
    decreases |xs|
  {
    if xs == [] then Err(ValueError)
    else if xs[0] == x then
      assert xs == [xs[0]] + xs[1..];
      Ok(xs[1..])
    else
      match RemoveFirst(xs[1..], x)
      case Err(e) => Err(e)
      case Ok(ys) =>
        assert xs == [xs[0]] + xs[1..];
        Ok([xs[0]] + ys)
  }

  lemma {:induction false} MissingSnoc(xs: seq<string>, x: string, present: string -> bool)
    ensures Missing(xs + [x], present) == Missing(xs, present) + (if present(x) then [] else [x])
    decreases |xs|
  {
    if xs != [] {
      assert (xs + [x])[1..] == xs[1..] + [x];
      MissingSnoc(xs[1..], x, present);
    }
  }

  /**
    Removing the first missing item removes it at its first missing position:
    the rest of the missing list is left, and the kept items are untouched.
  */
  lemma {:induction false} RemoveFirstMissing(xs: seq<string>, present: string -> bool)
    requires |Missing(xs, present)| > 0
    ensures RemoveFirst(xs, Missing(xs, present)[0]).Ok?
    ensures var ys := RemoveFirst(xs, Missing(xs, present)[0]).value;
      Missing(ys, present) == Missing(xs, present)[1..] && Kept(ys, present) == Kept(xs, present)
    decreases |xs|
  {
    var m := Missing(xs, present)[0];
    assert m in Missing(xs, present);
    if present(xs[0]) {
      assert Missing(xs, present) == Missing(xs[1..], present);
      assert xs[0] != m;
      RemoveFirstMissing(xs[1..], present);
      var zs := RemoveFirst(xs[1..], m).value;
      assert RemoveFirst(xs, m) == Ok([xs[0]] + zs);
      assert ([xs[0]] + zs)[1..] == zs;
    } else {
      assert m == xs[0];
      assert RemoveFirst(xs, m) == Ok(xs[1..]);
    }
  }

  lemma {:induction false} NoneMissing(xs: seq<string>, present: string -> bool)
    requires Missing(xs, present) == []
    ensures Kept(xs, present) == xs
    decreases |xs|
  {
    if xs != [] {
      assert present(xs[0]) && Missing(xs[1..], present) == [] by {
        assert |Missing(xs, present)| == (if present(xs[0]) then 0 else 1) + |Missing(xs[1..], present)|;
      }
      NoneMissing(xs[1..], present);
      assert Kept(xs, present) == [xs[0]] + xs[1..] by {
        assert Kept(xs, present) == [xs[0]] + Kept(xs[1..], present);
      }
      assert xs == [xs[0]] + xs[1..];
    }
  }

  /**
    `test_models_exist(model)`: collects the export items the scene lacks,
    then removes each of them, leaving exactly the items that exist, in their
    order; repeats of a missing item all go.
  */
  method TestModelsExist(model: ModelData, objExists: string -> bool) returns (m: ModelData)
    ensures m == model.(exportItems := Kept(model.exportItems, objExists))
  {
    var missing := CollectMissing(model.exportItems, objExists);
    var kept := RemoveMissing(model.exportItems, missing, objExists);
    m := model.(exportItems := kept);
  }

  /** The first loop of `test_models_exist`: `missing.append(item)` for each item the scene lacks. */
  method CollectMissing(items: seq<string>, objExists: string -> bool) returns (missing: seq<string>)
    ensures missing == Missing(items, objExists)
  {
    missing := [];
    var i := 0;
    while i < |items|
      invariant 0 <= i <= |items|
      invariant missing == Missing(items[..i], objExists)
    {
      MissingSnoc(items[..i], items[i], objExists);
      assert items[..i + 1] == items[..i] + [items[i]];
      if !objExists(items[i]) {
        missing := missing + [items[i]];
      }
      i := i + 1;
    }
    assert items[..i] == items;
  }

  /** The second loop of `test_models_exist`: `export_items.remove(miss)` for each collected item; none raises. */
  method RemoveMissing(items: seq<string>, missing: seq<string>, objExists: string -> bool) returns (kept: seq<string>)
    requires missing == Missing(items, objExists)
    ensures kept == Kept(items, objExists)
  {
    kept := items;
    var k := 0;
    assert missing[k..] == missing;
    while k < |missing|
      invariant 0 <= k <= |missing|
      invariant Missing(kept, objExists) == missing[k..]
      invariant Kept(kept, objExists) == Kept(items, objExists)
    {
      var next := RemoveFirst(kept, missing[k]);
      assert next.Ok? && Missing(next.value, objExists) == missing[k + 1..]
        && Kept(next.value, objExists) == Kept(items, objExists) by {
        assert Missing(kept, objExists)[0] == missing[k];
        assert missing[k..][1..] == missing[k + 1..];
        RemoveFirstMissing(kept, objExists);
      }
      kept := next.value;
      k := k + 1;
    }
    assert Missing(kept, objExists) == [];
    NoneMissing(kept, objExists);
  }

  // ---------------------------------------------------------------------
  // pre_export_model: zero the transforms, export, restore them

  /** `pm.objExists` over a scene given as its transforms. */
  function InScene<M>(scene: map<string, M>): string -> bool {
    (x: string) => x in scene
  }

  /**
    The saving loop as written: `model_matrixs[item] = getMatrix()` then
    `setMatrix(zero)`, item by item. An item listed twice is saved a second
    time after it was zeroed, so its saved value is the zero matrix.
  */
  function SaveAndZeroAsWritten<M>(scene: map<string, M>, items: seq<string>, zero: M, saved: map<string, M>)
      : (r: (map<string, M>, map<string, M>))
    requires forall x | x in items :: x in scene
    ensures forall x | x in items || x in saved :: x in r.0
    ensures r.1.Keys == scene.Keys
    ensures forall x | x in r.1 :: r.1[x] == if x in items then zero else scene[x]
    decreases |items|
  {
    if items == [] then (saved, scene)
    else SaveAndZeroAsWritten(scene[items[0] := zero], items[1..], zero, saved[items[0] := scene[items[0]]])
  }

  /**
    What the saving loop as written records: an item met once keeps the
    matrix it had, an item met more than once ends with the zero matrix, and
    an entry saved earlier for an item not in the list is left alone.
  */
  lemma {:induction false} SavedAsWritten<M>(scene: map<string, M>, items: seq<string>, zero: M, saved: map<string, M>)
    requires forall x | x in items :: x in scene
    ensures var s := SaveAndZeroAsWritten(scene, items, zero, saved).0;
      forall x | x in items :: s[x] == if multiset(items)[x] > 1 then zero else scene[x]
    ensures var s := SaveAndZeroAsWritten(scene, items, zero, saved).0;
      forall x | x in saved && x !in items :: s[x] == saved[x]
    decreases |items|
  {
    if items != [] {
      var y := items[0];
      assert items == [y] + items[1..];
      SavedAsWritten(scene[y := zero], items[1..], zero, saved[y := scene[y]]);
    }
  }

  /** The saving loop corrected: an item is saved only the first time it is met. */
  function SaveAndZero<M>(scene: map<string, M>, items: seq<string>, zero: M, saved: map<string, M>)
      : (r: (map<string, M>, map<string, M>))
    requires forall x | x in items :: x in scene
    ensures forall x | x in items :: x in r.0
    ensures forall x | x in saved :: x in r.0 && r.0[x] == saved[x]
    ensures r.1.Keys == scene.Keys
    ensures forall x | x in r.1 :: r.1[x] == if x in items then zero else scene[x]
    decreases |items|
  {
    if items == [] then (saved, scene)
    else
      var x := items[0];
      SaveAndZero(scene[x := zero], items[1..], zero, if x in saved then saved else saved[x := scene[x]])
  }

  /** The restoring loop: `setMatrix(model_matrixs[item])`, item by item. */
  function Restore<M>(scene: map<string, M>, items: seq<string>, saved: map<string, M>): (r: map<string, M>)
    requires forall x | x in items :: x in saved
    ensures r.Keys == scene.Keys + set x | x in items
    ensures forall x | x in r :: r[x] == if x in items then saved[x] else scene[x]
    decreases |items|
  {
    if items == [] then scene
    else Restore(scene[items[0] := saved[items[0]]], items[1..], saved)
  }

  /** Zeroing with the corrected saving loop and restoring gives back the scene it started from. */
  lemma {:induction false} SavedValuesAreOriginal<M>(scene: map<string, M>, items: seq<string>, zero: M,
                                                     saved: map<string, M>, original: map<string, M>)
    requires forall x | x in items :: x in scene
    requires forall x | x in saved :: x in original && saved[x] == original[x]
    requires forall x | x in scene && x !in saved :: x in original && scene[x] == original[x]
    ensures var s := SaveAndZero(scene, items, zero, saved).0;
      forall x | x in items :: x in original && s[x] == original[x]
    decreases |items|
  {
    if items != [] {
      var x := items[0];
      var saved' := if x in saved then saved else saved[x := scene[x]];
      SavedValuesAreOriginal(scene[x := zero], items[1..], zero, saved', original);
    }
  }

  lemma ZeroThenRestore<M>(scene: map<string, M>, items: seq<string>, zero: M)
    requires forall x | x in items :: x in scene
    ensures var (saved, zeroed) := SaveAndZero(scene, items, zero, map[]);
      Restore(zeroed, items, saved) == scene
  {
    var (saved, zeroed) := SaveAndZero(scene, items, zero, map[]);
    SavedValuesAreOriginal(scene, items, zero, map[], scene);
    var r := Restore(zeroed, items, saved);
    assert r.Keys == scene.Keys;
  }

  /**
    Zeroing with the saving loop as written and restoring: the scene keeps its
    nodes, an item listed more than once is left at the zero matrix and every
    other node gets its matrix back; with no item repeated, the scene is exactly
    the one the export started from.
  */
  lemma RestoreAfterSaveAsWritten<M>(scene: map<string, M>, items: seq<string>, zero: M)
    requires forall x | x in items :: x in scene
    ensures var (saved, zeroed) := SaveAndZeroAsWritten(scene, items, zero, map[]);
      var r := Restore(zeroed, items, saved);
      r.Keys == scene.Keys &&
      forall x | x in r :: r[x] == if multiset(items)[x] > 1 then zero else scene[x]
    ensures var (saved, zeroed) := SaveAndZeroAsWritten(scene, items, zero, map[]);
      (forall x | x in items :: multiset(items)[x] == 1) ==> Restore(zeroed, items, saved) == scene
  {
    var (saved, zeroed) := SaveAndZeroAsWritten(scene, items, zero, map[]);
    SavedAsWritten(scene, items, zero, map[]);
    var r := Restore(zeroed, items, saved);
    assert r.Keys == scene.Keys;
    forall x | x in r
      ensures r[x] == if multiset(items)[x] > 1 then zero else scene[x]
    {
      if x !in items {
        assert multiset(items)[x] == 0;
      }
    }
  }

  /** With an item listed twice, the saving loop as written leaves that item zeroed after the export. */
  lemma RepeatedItemStaysZeroed()
    ensures var scene := map["a" := 1];
      var (saved, zeroed) := SaveAndZeroAsWritten(scene, ["a", "a"], 0, map[]);
      Restore(zeroed, ["a", "a"], saved)["a"] == 0 != scene["a"]
  {
    var scene := map["a" := 1];
    var (saved, zeroed) := SaveAndZeroAsWritten(scene, ["a", "a"], 0, map[]);
    assert SaveAndZeroAsWritten(scene, ["a", "a"], 0, map[]) ==
      SaveAndZeroAsWritten(scene["a" := 0], ["a"], 0, map["a" := 1]);
    assert saved == map["a" := 0];
  }

  /** What `export_model` hands to `FBXExport`: the target, the selected items and the scene as it then is. */
  datatype ModelExport<M> = ModelExport(path: string, items: seq<string>, scene: map<string, M>)

  /**
    `pre_export_model(model, export_path, options)`: prunes the missing export
    items, and when the model's or the options' zero switch is set, exports
    with every item at the zero matrix and puts each back afterwards. The
    export happens only when an item is left to select. An item listed more
    than once is left at the zero matrix, since its second saved value is
    the zeroed one; every other node ends as it began.
  */
  method PreExportModel<M>(scene: map<string, M>, model: ModelData, exportPath: string, options: Flags, zero: M)
      returns (exported: Option<ModelExport<M>>, scene': map<string, M>)
    ensures var items := Kept(model.exportItems, InScene(scene));
      exported == if items == [] then None
        else Some(ModelExport(exportPath, items,
          if model.flags.zero.truth || options.zero.truth then SaveAndZeroAsWritten(scene, items, zero, map[]).1 else scene))
    ensures scene'.Keys == scene.Keys
    ensures var items := Kept(model.exportItems, InScene(scene));
      forall x | x in scene' ::
        scene'[x] == if (model.flags.zero.truth || options.zero.truth) && multiset(items)[x] > 1 then zero else scene[x]
    ensures var items := Kept(model.exportItems, InScene(scene));
      (forall x | x in items :: multiset(items)[x] == 1) ==> scene' == scene
  {
    var m := TestModelsExist(model, InScene(scene));
    var items := m.exportItems;
    if m.flags.zero.truth || options.zero.truth {
      var saved, zeroed := ZeroItems(scene, items, zero);
      exported := if items == [] then None else Some(ModelExport(exportPath, items, zeroed));
      scene' := RestoreItems(zeroed, items, saved);
      RestoreAfterSaveAsWritten(scene, items, zero);
    } else {
      exported := if items == [] then None else Some(ModelExport(exportPath, items, scene));
      scene' := scene;
    }
  }

  /** The saving loop: saves each item's current matrix, then zeroes it. */
  method ZeroItems<M>(scene: map<string, M>, items: seq<string>, zero: M) returns (saved: map<string, M>, current: map<string, M>)
    requires forall x | x in items :: x in scene
    ensures (saved, current) == SaveAndZeroAsWritten(scene, items, zero, map[])
  {
    saved := map[];
    current := scene;
    var i := 0;
    while i < |items|
      invariant 0 <= i <= |items|
      invariant forall x | x in items[i..] :: x in current
      invariant SaveAndZeroAsWritten(current, items[i..], zero, saved) == SaveAndZeroAsWritten(scene, items, zero, map[])
    {
      var x := items[i];
      assert items[i..][1..] == items[i + 1..];
      saved := saved[x := current[x]];
      current := current[x := zero];
      i := i + 1;
    }
  }

  /** The restoring loop: puts each item's saved matrix back. */
  method RestoreItems<M>(scene: map<string, M>, items: seq<string>, saved: map<string, M>) returns (current: map<string, M>)
    requires forall x | x in items :: x in saved
    ensures current == Restore(scene, items, saved)
  {
    current := scene;
    var j := 0;
    while j < |items|
      invariant 0 <= j <= |items|
      invariant Restore(current, items[j..], saved) == Restore(scene, items, saved)
    {
      assert items[j..][1..] == items[j + 1..];
      current := current[items[j] := saved[items[j]]];
      j := j + 1;
    }
  }

  // ---------------------------------------------------------------------
  // export_rig and export_animation

  /** What Maya reports back: whether `select` raised, whether nothing ended up selected, whether `FBXExport` raised. */
  datatype Host = Host(selectRaises: bool, selectionEmpty: bool, exportRaises: bool)

  /** An `FBXExport` call: the selection it exports and its target file. */
  datatype FbxCall = FbxCall(selection: seq<string>, path: string)

  /** `export_dir + '\\' + name + '.fbx'`. */
  function FbxTarget(dir: string, name: string): (p: string)
    ensures |p| == |dir| + |name| + 5
    ensures p[..|dir|] == dir && p[|p| - 4..] == ".fbx" && p[|dir|] == '\\'
    ensures p[|dir| + 1..|p| - 4] == name
  {
    dir + "\\" + name + ".fbx"
  }

  /**
    `export_rig(models, model_name, root_name, export_dir)`: selects every
    model without its DAG path together with the root, and exports to the
    model name without its path; answers True after an export, None when
    nothing was selected, and False when Maya raised anywhere.
  */
  method ExportRig(models: seq<string>, modelName: string, rootName: string, exportDir: string, host: Host)
      returns (call: Option<FbxCall>, r: Option<bool>)
    ensures call.Some? <==> !host.selectRaises && !host.selectionEmpty
    ensures call.Some? ==> (|call.value.selection| == |models| + 1 &&
      (forall i | 0 <= i < |models| :: call.value.selection[i] == RemovePipe(models[i])) &&
      call.value.selection[|models|] == rootName &&
      call.value.path == FbxTarget(exportDir, RemovePipe(modelName)))
    ensures r == Some(false) <==> host.selectRaises || (!host.selectionEmpty && host.exportRaises)
    ensures r == None <==> !host.selectRaises && host.selectionEmpty
  {
    var exportModels := [];
    var i := 0;
    while i < |models|
      invariant 0 <= i <= |models|
      invariant |exportModels| == i && forall k | 0 <= k < i :: exportModels[k] == RemovePipe(models[k])
    {
      exportModels := exportModels + [RemovePipe(models[i])];
      i := i + 1;
    }
    if host.selectRaises {
      return None, Some(false);
    }
    var path := FbxTarget(exportDir, RemovePipe(modelName));
    if host.selectionEmpty {
      return None, None;
    }
    call := Some(FbxCall(exportModels + [rootName], path));
    r := if host.exportRaises then Some(false) else Some(true);
  }

  /**
    `export_animation(name, export_dir)`: exports the current selection to
    `name` in the directory and answers True; with nothing selected it
    exports nothing and answers None. The FBX call's own failure is not
    caught here and is not modelled.
  */
  function ExportAnimation(name: string, exportDir: string, selection: seq<string>): (r: (Option<FbxCall>, Option<bool>))
    ensures r.0.Some? <==> selection != [] && r.1 == Some(true)
    ensures selection == [] <==> r.1.None?
    ensures r.0.Some? ==> r.0.value.path == FbxTarget(exportDir, name) && r.0.value.selection == selection
  {
    if selection != [] then (Some(FbxCall(selection, FbxTarget(exportDir, name))), Some(true))
    else (None, None)
  }
}
