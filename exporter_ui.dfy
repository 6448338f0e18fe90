/**
  The non-widget rules of the exporter's window (`fbx_exporter_ui.py`): which
  options and which directory an export uses, and how model layers and rig
  models are edited from a scene selection before they are written back to
  `fileInfo`. The window's tree widgets and dialogs are left out: a tree row
  is a `TreeItem`, a scene selection a list of names, `os.path.isdir` and
  `get_uuid` are oracles.
*/
module ExporterUi {
  import opened Wrappers
  import opened PyCore
  import opened Records
  import opened Store
  import opened Codec
  import opened Edits
  import opened ExporterData
  import opened Export

  // ---------------------------------------------------------------------
  // set_export_options

  /** The record `set_export_options` copies from: a model or a layer. */
  datatype OptionSource = FromModel(model: ModelData) | FromLayer(layer: LayerData)

  function SourceFlags(data: OptionSource): Flags {
    match data
    case FromModel(m) => m.flags
    case FromLayer(l) => l.flags
  }

  /**
    `set_export_options(data, class_type)`: fresh export options carrying the
    eight switches of `data`; for a model (`'models'`) also its two
    override-layer switches. A layer has no override-layer switches, so
    asking for them raises AttributeError.
  */
  function SetExportOptions(data: OptionSource, classType: string): (r: Result<ExportOptions, Fault>)
    ensures r.Err? <==> classType == ModelsStr && data.FromLayer?
    ensures r.Ok? ==> r.value.flags == SourceFlags(data)
    ensures r.Ok? && classType != ModelsStr ==> r.value.overridePath.None? && r.value.overrideOptions.None?
    ensures r.Ok? && classType == ModelsStr ==>
      r.value.overridePath == Some(data.model.overrideLayerPath) &&
      r.value.overrideOptions == Some(data.model.overrideLayerOptions)
  {
    var options := NewExportOptions();
    if classType == ModelsStr then
      match data
      case FromLayer(_) => Err(AttributeError)
      case FromModel(m) =>
        Ok(options.(overridePath := Some(m.overrideLayerPath), overrideOptions := Some(m.overrideLayerOptions),
                    flags := m.flags))
    else Ok(options.(flags := SourceFlags(data)))
  }

  // ---------------------------------------------------------------------
  // get_export_dir and get_export_directory

  /** The first candidate that is a directory, or the fallback when none is. */
  function FirstDirOr(candidates: seq<string>, isDir: string -> bool, fallback: string): (d: string)
    ensures (forall k | 0 <= k < |candidates| :: !isDir(candidates[k])) ==> d == fallback
    ensures (exists k | 0 <= k < |candidates| :: isDir(candidates[k])) ==>
      exists k | 0 <= k < |candidates| :: d == candidates[k] && isDir(d) && forall j | 0 <= j < k :: !isDir(candidates[j])
    decreases |candidates|
  {
    if candidates == [] then fallback
    else if isDir(candidates[0]) then candidates[0]
    else
      assert forall j | 1 <= j < |candidates| :: candidates[j] == candidates[1..][j - 1];
      FirstDirOr(candidates[1..], isDir, fallback)
  }

  /**
    `get_export_dir(layer_path, model, identifier)`: with no layer path,
    None. For a layer (`'layers'`), the layer path or its project-relative
    form, whichever is a directory first, else the project path. For a model
    (`'models'`), the model's path or, as the model's override-layer-path
    switch says, its own or the layer's path under the project, else the
    project path; `''` in place of a model raises AttributeError and a model
    without a path raises TypeError in `isdir`. Any other identifier gives
    None.
  */
  function GetExportDir(layerPath: Text, model: Option<ModelData>, identifier: string, project: string,
                        isDir: string -> bool): (r: Result<Option<string>, Fault>)
    ensures !Truthy(layerPath) ==> r == Ok(None)
    ensures Truthy(layerPath) && identifier == ModelLayerStr ==>
      r == Ok(Some(FirstDirOr([layerPath.value, project + "\\" + layerPath.value], isDir, project)))
    ensures Truthy(layerPath) && identifier == ModelsStr ==>
      (r.Ok? <==> model.Some? && model.value.path.Some?)
    ensures Truthy(layerPath) && identifier == ModelsStr && r.Ok? ==>
      var p := model.value.path.value;
      var under := if model.value.overrideLayerPath.truth then p else layerPath.value;
      r == Ok(Some(FirstDirOr([p, project + "\\" + under], isDir, project)))
    ensures Truthy(layerPath) && identifier != ModelLayerStr && identifier != ModelsStr ==> r == Ok(None)
  {
    if !Truthy(layerPath) then Ok(None)
    else if identifier == ModelLayerStr then
      if isDir(layerPath.value) then Ok(Some(layerPath.value))
      else
        var exportDir := project + "\\" + layerPath.value;
        if isDir(exportDir) then Ok(Some(exportDir)) else Ok(Some(project))
    else if identifier == ModelsStr then
      if model.None? then Err(AttributeError)
      else if model.value.path.None? then Err(TypeError)
      else if isDir(model.value.path.value) then Ok(Some(model.value.path.value))
      else
        var exportDir := if model.value.overrideLayerPath.truth then project + "\\" + model.value.path.value
                         else project + "\\" + layerPath.value;
        if isDir(exportDir) then Ok(Some(exportDir)) else Ok(Some(project))
    else Ok(None)
  }

  /**
    `get_export_directory(path)`: with no path, None; otherwise the path, its
    project-relative form or the project path, whichever is a directory
    first, else Maya's workspace path.
  */
  function GetExportDirectory(path: Text, project: string, isDir: string -> bool, workspace: string): (r: Option<string>)
    ensures !Truthy(path) <==> r.None?
    ensures Truthy(path) ==> r == Some(FirstDirOr([path.value, project + "\\" + path.value, project], isDir, workspace))
  {
    if !Truthy(path) then None
    else if isDir(path.value) then Some(path.value)
    else
      var exportDir := project + "\\" + path.value;
      var candidates := [path.value, exportDir, project];
      assert candidates[1..] == [exportDir, project] && [exportDir, project][1..] == [project] && [project][1..] == [];
      assert FirstDirOr([project], isDir, workspace) == if isDir(project) then project else workspace;
      assert FirstDirOr([exportDir, project], isDir, workspace) ==
        if isDir(exportDir) then exportDir else FirstDirOr([project], isDir, workspace);
      if isDir(exportDir) then Some(exportDir)
      else if isDir(project) then Some(project)
      else Some(workspace)
  }

  // ---------------------------------------------------------------------
  // export_model

  /** What `export_model` hands to `export_model_setup`: the model, its target file and its options. */
  datatype ModelRequest = ModelRequest(model: ModelData, path: string, options: ExportOptions)

  /** The directory a model exports to: through its own path when its override-layer-path switch is set. */
  function ModelExportDir(layer: LayerData, model: ModelData, project: string, isDir: string -> bool)
      : Result<Option<string>, Fault>
  {
    if model.overrideLayerPath.truth then GetExportDir(layer.path, Some(model), ModelsStr, project, isDir)
    else GetExportDir(layer.path, None, ModelLayerStr, project, isDir)
  }

  /**
    One model of a matching layer: a model named as the row exports to its
    directory under its name, with its own options when its
    override-layer-options switch is set and the layer's otherwise. It
    exports nothing when there is no directory or it is empty, and raises
    what the directory lookup raises.
  */
  function ModelStep(layer: LayerData, model: ModelData, item: TreeItem, project: string, isDir: string -> bool)
      : (r: (seq<ModelRequest>, Option<Fault>))
    ensures model.name != Some(item.text) ==> r == ([], None)
    ensures model.name == Some(item.text) ==>
      (r.1.Some? <==> ModelExportDir(layer, model, project, isDir).Err?) &&
      (|r.0| > 0 <==> ModelExportDir(layer, model, project, isDir).Ok? && Truthy(ModelExportDir(layer, model, project, isDir).value))
    ensures |r.0| <= 1
    ensures |r.0| == 1 ==>
      var q := r.0[0];
      q.model == model &&
      q.path == FbxTarget(ModelExportDir(layer, model, project, isDir).value.value, item.text) &&
      q.options.flags == (if model.overrideLayerOptions.truth then model.flags else layer.flags) &&
      (q.options.overridePath.Some? <==> model.overrideLayerOptions.truth)
  {
    if model.name != Some(item.text) then ([], None)
    else
      match ModelExportDir(layer, model, project, isDir)
      case Err(e) => ([], Some(e))
      case Ok(None) => ([], None)
      case Ok(Some("")) => ([], None)
      case Ok(Some(d)) =>
        var options := if model.overrideLayerOptions.truth then SetExportOptions(FromModel(model), ModelsStr).value
                       else SetExportOptions(FromLayer(layer), ModelLayerStr).value;
        ([ModelRequest(model, FbxTarget(d, item.text), options)], None)
  }

  function ModelStepFn(layer: LayerData, item: TreeItem, project: string, isDir: string -> bool)
      : ModelData -> (seq<ModelRequest>, Option<Fault>)
  {
    (m: ModelData) => ModelStep(layer, m, item, project, isDir)
  }

  /** One layer: a layer named as the row's parent goes through its models. */
  function LayerStepFn(item: TreeItem, project: string, isDir: string -> bool)
      : LayerData -> (seq<ModelRequest>, Option<Fault>)
  {
    (l: LayerData) => if l.name == item.parent then Gather(l.models, ModelStepFn(l, item, project, isDir)) else ([], None)
  }

  /**
    `export_model(item)`: nothing without a project path; the parent row's
    text is read once per layer, which raises AttributeError on a top-level
    row; then every model named as the row, in every layer named as its
    parent, is exported in order until a lookup raises.
  */
  function ExportModelRequests(layers: seq<LayerData>, item: TreeItem, project: string, isDir: string -> bool)
      : (seq<ModelRequest>, Option<Fault>)
  {
    if project == "" then ([], None)
    else if |layers| > 0 && item.parent.None? then ([], Some(AttributeError))
    else Gather(layers, LayerStepFn(item, project, isDir))
  }

  /**
    With one layer named as the row's parent and one model in it named as
    the row, exporting is that one model's step: one request with the
    options its override switch chooses, none, or the lookup's fault.
  */
  lemma ExportModelUnique(layers: seq<LayerData>, item: TreeItem, project: string, isDir: string -> bool, i: nat, j: nat)
    requires project != "" && item.parent.Some?
    requires i < |layers| && layers[i].name == item.parent
    requires forall k | 0 <= k < |layers| && k != i :: layers[k].name != item.parent
    requires j < |layers[i].models| && layers[i].models[j].name == Some(item.text)
    requires forall k | 0 <= k < |layers[i].models| && k != j :: layers[i].models[k].name != Some(item.text)
    ensures ExportModelRequests(layers, item, project, isDir) == ModelStep(layers[i], layers[i].models[j], item, project, isDir)
  {
    var f := ModelStepFn(layers[i], item, project, isDir);
    GatherOne(layers[i].models, f, j);
    GatherOne(layers, LayerStepFn(item, project, isDir), i);
  }

  // ---------------------------------------------------------------------
  // The sets the window builds: `set(xs)` and `list(set(a).union(set(b)))`

  /** `set(xs)` as a list: each item once. The order of a Python set is not modelled; the first occurrences' order is kept. */
  function SetList(xs: seq<string>): (r: seq<string>)
    ensures Distinct(r)
    ensures forall x :: x in r <==> x in xs
    decreases |xs|
  {
    if xs == [] then []
    else
      var r := SetList(xs[..|xs| - 1]);
      assert forall x :: x in xs <==> x in xs[..|xs| - 1] || x == xs[|xs| - 1] by {
        assert xs == xs[..|xs| - 1] + [xs[|xs| - 1]];
      }
      if xs[|xs| - 1] in r then r else r + [xs[|xs| - 1]]
  }

  /**
    The `remove_model_export_item` loop over one model: each name that is
    still listed loses its first occurrence. The list shrinks exactly when
    one of the names was listed.
  */
  function Without(items: seq<string>, removes: seq<string>): (r: seq<string>)
    ensures forall x | x in r :: x in items
    ensures |r| <= |items|
    ensures (exists x | x in removes :: x in items) <==> |r| < |items|
    ensures (forall x | x in removes :: x !in items) ==> r == items
    decreases |removes|
  {
    if removes == [] then items
    else if removes[0] in items then
      var ys := RemoveFirst(items, removes[0]).value;
      assert forall x | x in ys :: x in items by {
        forall x | x in ys ensures x in items {
          assert multiset(ys)[x] > 0;
        }
      }
      Without(ys, removes[1..])
    else
      assert forall x | x in removes[1..] :: x in removes;
      Without(items, removes[1..])
  }

  /** On a list without repeats, removing the named items leaves exactly the others, still without repeats. */
  lemma {:induction false} WithoutDistinct(items: seq<string>, removes: seq<string>)
    requires Distinct(items)
    ensures Distinct(Without(items, removes))
    ensures forall x :: x in Without(items, removes) <==> x in items && x !in removes
    decreases |removes|
  {
    if removes != [] {
      var rest := if removes[0] in items then RemoveFirst(items, removes[0]).value else items;
      if removes[0] in items {
        RemoveFromDistinct(items, removes[0]);
      }
      WithoutDistinct(rest, removes[1..]);
    }
  }

  lemma {:induction false} RemoveFromDistinct(items: seq<string>, x: string)
    requires Distinct(items) && x in items
    ensures Distinct(RemoveFirst(items, x).value)
    ensures forall y :: y in RemoveFirst(items, x).value <==> y in items && y != x
    decreases |items|
  {
    if items[0] != x {
      assert Distinct(items[1..]) by {
        forall i, j | 0 <= i < j < |items[1..]| ensures items[1..][i] != items[1..][j] {
          assert items[1..][i] == items[i + 1] && items[1..][j] == items[j + 1];
        }
      }
      RemoveFromDistinct(items[1..], x);
      var ys := RemoveFirst(items[1..], x).value;
      assert RemoveFirst(items, x).value == [items[0]] + ys;
      assert items[0] !in ys by {
        forall k | 1 <= k < |items| ensures items[k] != items[0] { }
        assert forall y | y in items[1..] :: y != items[0];
      }
    } else {
      forall k | 1 <= k < |items| ensures items[k] != x { }
      assert forall y | y in items[1..] :: y != x;
      assert Distinct(items[1..]) by {
        forall i, j | 0 <= i < j < |items[1..]| ensures items[1..][i] != items[1..][j] {
          assert items[1..][i] == items[i + 1] && items[1..][j] == items[j + 1];
        }
      }
    }
  }

  function ItemsWithout(removes: seq<string>): RigModelData -> RigModelData {
    (m: RigModelData) => m.(exportItems := Without(m.exportItems, removes))
  }

  function ItemsUnion(adds: seq<string>): RigModelData -> RigModelData {
    (m: RigModelData) => m.(exportItems := SetList(m.exportItems + adds))
  }

  /** A rig model named `name` that lists one of `removes`. */
  function RigModelListing(name: Text, removes: seq<string>): RigModelData -> bool {
    (m: RigModelData) => m.name == name && exists x | x in removes :: x in m.exportItems
  }

  // ---------------------------------------------------------------------
  // add_multiple_models

  /** A model in `models` with this name. */
  function NamedIn(models: seq<ModelData>): string -> bool {
    (a: string) => exists m | m in models :: m.name == Some(a)
  }

  /** The model `add_multiple_models` makes for a scene node: named `use_name` when given, else the node. */
  function NewModel(a: string, useName: Text, uuidOf: string -> Text): (m: ModelData)
    ensures m.exportItems == [a] && m.uuid == uuidOf(a)
    ensures m.name == if Truthy(useName) then useName else Some(a)
    ensures m.flags == NewModelData().flags && m.path.None?
  {
    NewModelData().(name := if Truthy(useName) then useName else Some(a), exportItems := [a], uuid := uuidOf(a))
  }

  function NewModels(valid: seq<string>, useName: Text, uuidOf: string -> Text): (ms: seq<ModelData>)
    ensures |ms| == |valid| && forall k | 0 <= k < |valid| :: ms[k] == NewModel(valid[k], useName, uuidOf)
  {
    seq(|valid|, k requires 0 <= k < |valid| => NewModel(valid[k], useName, uuidOf))
  }

  /**
    The layer loop of `add_multiple_models`. The list of valid names is
    shared by all layers: a layer named `name` gets a model for every name
    valid so far, its own new ones included. Answers the layers and the
    final list of valid names.
  */
  function AddToLayers(layers: seq<LayerData>, name: string, adds: seq<string>, useName: Text,
                       uuidOf: string -> Text): (r: (seq<LayerData>, seq<string>))
    ensures |r.0| == |layers|
    decreases |layers|
  {
    if layers == [] then ([], [])
    else
      var n := |layers| - 1;
      var r := AddToLayers(layers[..n], name, adds, useName, uuidOf);
      if layers[n].name == Some(name) then
        var valid := r.1 + Missing(adds, NamedIn(layers[n].models));
        (r.0 + [layers[n].(models := layers[n].models + NewModels(valid, useName, uuidOf))], valid)
      else (r.0 + [layers[n]], r.1)
  }

  lemma {:induction false} AddToNoLayer(layers: seq<LayerData>, name: string, adds: seq<string>, useName: Text,
                                        uuidOf: string -> Text)
    requires forall k | 0 <= k < |layers| :: layers[k].name != Some(name)
    ensures AddToLayers(layers, name, adds, useName, uuidOf) == (layers, [])
    decreases |layers|
  {
    if layers != [] {
      var n := |layers| - 1;
      AddToNoLayer(layers[..n], name, adds, useName, uuidOf);
      assert layers == layers[..n] + [layers[n]];
    }
  }

  lemma {:induction false} AddToOneLayer(layers: seq<LayerData>, name: string, adds: seq<string>, useName: Text,
                                         uuidOf: string -> Text, i: nat)
    requires i < |layers| && layers[i].name == Some(name)
    requires forall k | 0 <= k < |layers| && k != i :: layers[k].name != Some(name)
    ensures var valid := Missing(adds, NamedIn(layers[i].models));
      AddToLayers(layers, name, adds, useName, uuidOf) ==
        (layers[i := layers[i].(models := layers[i].models + NewModels(valid, useName, uuidOf))], valid)
    decreases |layers|
  {
    var n := |layers| - 1;
    var valid := Missing(adds, NamedIn(layers[i].models));
    var l := layers[i].(models := layers[i].models + NewModels(valid, useName, uuidOf));
    if i == n {
      AddToNoLayer(layers[..n], name, adds, useName, uuidOf);
      assert [] + valid == valid;
      assert layers[..n] + [l] == layers[i := l];
    } else {
      AddToOneLayer(layers[..n], name, adds, useName, uuidOf, i);
      assert layers[..n][i := l] + [layers[n]] == layers[i := l];
    }
  }

  /**
    With one layer named `name`, `add_multiple_models` appends to it one
    fresh model for each added name that no model of the layer has, each
    exporting just that name, and changes no other layer.
  */
  lemma AddMultipleModelsUnique(layers: seq<LayerData>, name: string, adds: seq<string>, useName: Text,
                                uuidOf: string -> Text, i: nat)
    requires i < |layers| && layers[i].name == Some(name)
    requires forall k | 0 <= k < |layers| && k != i :: layers[k].name != Some(name)
    ensures var newNames := Missing(adds, NamedIn(layers[i].models));
      AddToLayers(layers, name, adds, useName, uuidOf).0 ==
        layers[i := layers[i].(models := layers[i].models + NewModels(newNames, useName, uuidOf))] &&
      (forall a :: a in newNames <==> a in adds && !NamedIn(layers[i].models)(a))
  {
    AddToOneLayer(layers, name, adds, useName, uuidOf, i);
  }

  // ---------------------------------------------------------------------
  // add_item_to_model

  /**
    The model loop of `add_item_to_model` for one layer: the running list
    gains the items of every model named `name`, and that model's items
    become the set of the running list. Answers the new models, the running
    list and whether a model matched.
  */
  function AddItemsInModels(models: seq<ModelData>, name: string, temp: seq<string>)
      : (r: (seq<ModelData>, seq<string>, bool))
    ensures |r.0| == |models|
    decreases |models|
  {
    if models == [] then ([], temp, false)
    else if models[0].name == Some(name) then
      var temp' := temp + models[0].exportItems;
      var rest := AddItemsInModels(models[1..], name, temp');
      ([models[0].(exportItems := SetList(temp'))] + rest.0, rest.1, true)
    else
      var rest := AddItemsInModels(models[1..], name, temp);
      ([models[0]] + rest.0, rest.1, rest.2)
  }

  /** The layer loop of `add_item_to_model`; a top-level row matches no layer. */
  function AddItemsInLayers(layers: seq<LayerData>, parent: Text, name: string, temp: seq<string>)
      : (r: (seq<LayerData>, seq<string>, bool))
    ensures |r.0| == |layers|
    decreases |layers|
  {
    if layers == [] then ([], temp, false)
    else
      var n := |layers| - 1;
      var r := AddItemsInLayers(layers[..n], parent, name, temp);
      if parent.Some? && layers[n].name == parent then
        var inner := AddItemsInModels(layers[n].models, name, r.1);
        (r.0 + [layers[n].(models := inner.0)], inner.1, r.2 || inner.2)
      else (r.0 + [layers[n]], r.1, r.2)
  }

  lemma {:induction false} AddItemsInNoModel(models: seq<ModelData>, name: string, temp: seq<string>)
    requires forall k | 0 <= k < |models| :: models[k].name != Some(name)
    ensures AddItemsInModels(models, name, temp) == (models, temp, false)
    decreases |models|
  {
    if models != [] {
      AddItemsInNoModel(models[1..], name, temp);
      assert models == [models[0]] + models[1..];
    }
  }

  lemma {:induction false} AddItemsInOneModel(models: seq<ModelData>, name: string, temp: seq<string>, j: nat)
    requires j < |models| && models[j].name == Some(name)
    requires forall k | 0 <= k < |models| && k != j :: models[k].name != Some(name)
    ensures AddItemsInModels(models, name, temp) ==
      (models[j := models[j].(exportItems := SetList(temp + models[j].exportItems))], temp + models[j].exportItems, true)
    decreases |models|
  {
    if j == 0 {
      AddItemsInNoModel(models[1..], name, temp + models[0].exportItems);
      var m := models[0].(exportItems := SetList(temp + models[0].exportItems));
      assert [m] + models[1..] == models[0 := m];
    } else {
      AddItemsInOneModel(models[1..], name, temp, j - 1);
      var m := models[j].(exportItems := SetList(temp + models[j].exportItems));
      assert models[1..][j - 1] == models[j];
      assert [models[0]] + models[1..][j - 1 := m] == models[j := m];
    }
  }

  lemma {:induction false} AddItemsInNoLayer(layers: seq<LayerData>, parent: Text, name: string, temp: seq<string>)
    requires forall k | 0 <= k < |layers| :: layers[k].name != parent
    ensures AddItemsInLayers(layers, parent, name, temp) == (layers, temp, false)
    decreases |layers|
  {
    if layers != [] {
      var n := |layers| - 1;
      AddItemsInNoLayer(layers[..n], parent, name, temp);
      assert layers == layers[..n] + [layers[n]];
    }
  }

  lemma {:induction false} AddItemsInOneLayer(layers: seq<LayerData>, parent: Text, name: string, temp: seq<string>, i: nat)
    requires parent.Some? && i < |layers| && layers[i].name == parent
    requires forall k | 0 <= k < |layers| && k != i :: layers[k].name != parent
    ensures var inner := AddItemsInModels(layers[i].models, name, temp);
      AddItemsInLayers(layers, parent, name, temp) == (layers[i := layers[i].(models := inner.0)], inner.1, inner.2)
    decreases |layers|
  {
    var n := |layers| - 1;
    var inner := AddItemsInModels(layers[i].models, name, temp);
    var l := layers[i].(models := inner.0);
    if i == n {
      AddItemsInNoLayer(layers[..n], parent, name, temp);
      assert layers[..n] + [l] == layers[i := l];
    } else {
      AddItemsInOneLayer(layers[..n], parent, name, temp, i);
      assert layers[..n][i := l] + [layers[n]] == layers[i := l];
    }
  }

  /**
    With one layer named as the row's parent and one model in it named as
    the row, `add_item_to_model` makes that model's export items the set of
    the selected names and its previous items, and changes nothing else.
  */
  lemma AddItemToModelUnique(layers: seq<LayerData>, item: TreeItem, selected: seq<string>, i: nat, j: nat)
    requires item.parent.Some? && i < |layers| && layers[i].name == item.parent
    requires forall k | 0 <= k < |layers| && k != i :: layers[k].name != item.parent
    requires j < |layers[i].models| && layers[i].models[j].name == Some(item.text)
    requires forall k | 0 <= k < |layers[i].models| && k != j :: layers[i].models[k].name != Some(item.text)
    ensures var ms := layers[i].models;
      var r := AddItemsInLayers(layers, item.parent, item.text, selected);
      r.2 && r.0 == layers[i := layers[i].(models := ms[j := ms[j].(exportItems := SetList(selected + ms[j].exportItems))])]
    ensures var items := AddItemsInLayers(layers, item.parent, item.text, selected).0[i].models[j].exportItems;
      Distinct(items) && forall x :: x in items <==> x in selected || x in layers[i].models[j].exportItems
  {
    AddItemsInOneModel(layers[i].models, item.text, selected, j);
    AddItemsInOneLayer(layers, item.parent, item.text, selected, i);
  }

  // ---------------------------------------------------------------------
  // The window

  /** The exporter window's in-memory records: the model layers and rig layers its trees show. */
  class CharacterExporterUi {
    var modelLayers: seq<LayerData>
    var rigLayers: seq<RigLayerData>

    constructor()
      ensures modelLayers == [] && rigLayers == []
    {
      modelLayers := [];
      rigLayers := [];
    }

    /** `export_model(item)`: the export requests made, in order, and the fault that stopped them. */
    method ExportModel(item: TreeItem, project: string, isDir: string -> bool)
        returns (requests: seq<ModelRequest>, fault: Option<Fault>)
      ensures (requests, fault) == ExportModelRequests(modelLayers, item, project, isDir)
    {
      requests, fault := [], None;
      if project == "" {
        return;
      }
      var layers := modelLayers;
      var i := 0;
      while i < |layers|
        invariant 0 <= i <= |layers|
        invariant i > 0 ==> item.parent.Some?
        invariant fault.None? && (requests, fault) == Gather(layers[..i], LayerStepFn(item, project, isDir))
      {
        if item.parent.None? {
          return [], Some(AttributeError);
        }
        assert layers[..i + 1][..i] == layers[..i];
        if layers[i].name == item.parent {
          var more, f := ExportLayerModels(layers[i], item, project, isDir);
          requests, fault := requests + more, f;
          if fault.Some? {
            GatherStops(layers, LayerStepFn(item, project, isDir), i + 1);
            return;
          }
        } else {
          assert requests + [] == requests;
        }
        i := i + 1;
      }
      assert layers[..i] == layers;
    }

    /** The model loop of `export_model` for one matching layer. */
    static method ExportLayerModels(layer: LayerData, item: TreeItem, project: string, isDir: string -> bool)
        returns (requests: seq<ModelRequest>, fault: Option<Fault>)
      ensures (requests, fault) == Gather(layer.models, ModelStepFn(layer, item, project, isDir))
    {
      requests, fault := [], None;
      var models := layer.models;
      var j := 0;
      while j < |models|
        invariant 0 <= j <= |models|
        invariant fault.None? && (requests, fault) == Gather(models[..j], ModelStepFn(layer, item, project, isDir))
      {
        assert models[..j + 1][..j] == models[..j];
        var step := ModelStep(layer, models[j], item, project, isDir);
        requests, fault := requests + step.0, step.1;
        if fault.Some? {
          GatherStops(models, ModelStepFn(layer, item, project, isDir), j + 1);
          return;
        }
        j := j + 1;
      }
      assert models[..j] == models;
    }

    /**
      `add_multiple_models(layer_name, ...)` for the names `adds` taken from
      the scene: every layer named `layer_name` gains the valid names as new
      models, then all model layers are written; with no names nothing happens.
    */
    method AddMultipleModels(fi: FileInfo, layerName: string, adds: seq<string>, useName: Text, uuidOf: string -> Text)
        returns (r: Result<(), Fault>)
      requires fi.Valid()
      modifies this, fi
      ensures fi.Valid() && rigLayers == old(rigLayers)
      ensures adds == [] ==> modelLayers == old(modelLayers) && fi.State() == old(fi.State()) && r.Ok?
      ensures adds != [] ==>
        modelLayers == AddToLayers(old(modelLayers), layerName, adds, useName, uuidOf).0 &&
        (fi.State(), r) == WriteAll(old(fi.State()), modelLayers, LayerEntry)
    {
      if adds == [] {
        return Ok(());
      }
      var done := AddToLayerList(modelLayers, layerName, adds, useName, uuidOf);
      modelLayers := done;
      r := WriteRecords(fi, done, LayerEntry);
    }

    /**
      `add_item_to_model(item)` for the selected names: the model rows named
      as the row, under layers named as its parent, get the set of the
      selection and their items; the layers are written when a model matched.
    */
    method AddItemToModel(fi: FileInfo, item: TreeItem, selected: seq<string>) returns (r: Result<(), Fault>)
      requires fi.Valid()
      modifies this, fi
      ensures fi.Valid() && rigLayers == old(rigLayers)
      ensures var a := AddItemsInLayers(old(modelLayers), item.parent, item.text, selected);
        modelLayers == a.0 &&
        (fi.State(), r) == if a.2 then WriteAll(old(fi.State()), a.0, LayerEntry) else (old(fi.State()), Ok(()))
    {
      var done, _, matched := AddItemsInLayerList(modelLayers, item.parent, item.text, selected);
      modelLayers := done;
      if matched {
        r := WriteRecords(fi, done, LayerEntry);
      } else {
        r := Ok(());
      }
    }

    /** The layer loop of `add_multiple_models`, with the shared list of valid names. */
    static method AddToLayerList(layers: seq<LayerData>, layerName: string, adds: seq<string>, useName: Text,
                                 uuidOf: string -> Text) returns (done: seq<LayerData>)
      ensures done == AddToLayers(layers, layerName, adds, useName, uuidOf).0
    {
      done := [];
      var valid: seq<string> := [];
      var i := 0;
      while i < |layers|
        invariant 0 <= i <= |layers|
        invariant (done, valid) == AddToLayers(layers[..i], layerName, adds, useName, uuidOf)
      {
        assert layers[..i + 1][..i] == layers[..i];
        var layer := layers[i];
        if layer.name == Some(layerName) {
          var newNames := CollectMissing(adds, NamedIn(layer.models));
          valid := valid + newNames;
          var added := NewModels(valid, useName, uuidOf);
          done := done + [layer.(models := layer.models + added)];
        } else {
          done := done + [layer];
        }
        i := i + 1;
      }
      assert layers[..i] == layers;
    }

    /** The layer loop of `add_item_to_model`, with the running list of items. */
    static method AddItemsInLayerList(layers: seq<LayerData>, parent: Text, name: string, temp0: seq<string>)
        returns (done: seq<LayerData>, temp: seq<string>, matched: bool)
      ensures (done, temp, matched) == AddItemsInLayers(layers, parent, name, temp0)
    {
      done, temp, matched := [], temp0, false;
      var i := 0;
      while i < |layers|
        invariant 0 <= i <= |layers|
        invariant (done, temp, matched) == AddItemsInLayers(layers[..i], parent, name, temp0)
      {
        assert layers[..i + 1][..i] == layers[..i];
        var layer := layers[i];
        if parent.Some? && layer.name == parent {
          var models, temp', hit := AddItemsInLayerModels(layer.models, name, temp);
          temp := temp';
          matched := matched || hit;
          done := done + [layer.(models := models)];
        } else {
          done := done + [layer];
        }
        i := i + 1;
      }
      assert layers[..i] == layers;
    }

    /** The model loop of `add_item_to_model` for one matching layer. */
    static method AddItemsInLayerModels(models: seq<ModelData>, name: string, temp0: seq<string>)
        returns (out: seq<ModelData>, temp: seq<string>, matched: bool)
      ensures (out, temp, matched) == AddItemsInModels(models, name, temp0)
    {
      out, temp, matched := [], temp0, false;
      var j := 0;
      while j < |models|
        invariant 0 <= j <= |models|
        invariant var rest := AddItemsInModels(models[j..], name, temp);
          var all := AddItemsInModels(models, name, temp0);
          out + rest.0 == all.0 && rest.1 == all.1 && (matched || rest.2) == all.2
      {
        assert models[j..][1..] == models[j + 1..];
        var model := models[j];
        if model.name == Some(name) {
          temp := temp + model.exportItems;
          out := out + [model.(exportItems := SetList(temp))];
          matched := true;
        } else {
          out := out + [model];
        }
        j := j + 1;
      }
      assert out + [] == out;
    }

    /**
      `add_model_export_item(item)` for the selected names: every rig model
      named as the row, under rigs named as its parent, lists the union of
      its items and the selection; the rigs are written when a model matched.
      A top-level row raises AttributeError once there is a rig to compare.
    */
    method AddModelExportItem(fi: FileInfo, item: TreeItem, adds: seq<string>) returns (r: Result<(), Fault>)
      requires fi.Valid()
      modifies this, fi
      ensures fi.Valid() && modelLayers == old(modelLayers)
      ensures adds == [] ==> rigLayers == old(rigLayers) && fi.State() == old(fi.State()) && r.Ok?
      ensures adds != [] && |old(rigLayers)| > 0 && item.parent.None? ==>
        rigLayers == old(rigLayers) && fi.State() == old(fi.State()) && r == Err(AttributeError)
      ensures adds != [] && (|old(rigLayers)| == 0 || item.parent.Some?) ==>
        rigLayers == MapWhere(old(rigLayers), RigNamed(item.parent), InRigModels(Some(item.text), ItemsUnion(adds))) &&
        (fi.State(), r) ==
          if LastPair(old(rigLayers), RigNamed(item.parent), ExporterData.RigModels, RigModelNamed(Some(item.text))).Some?
          then WriteAll(old(fi.State()), rigLayers, RigEntry) else (old(fi.State()), Ok(()))
    {
      if adds == [] {
        return Ok(());
      }
      if |rigLayers| > 0 && item.parent.None? {
        return Err(AttributeError);
      }
      var _, pair := FindLast(rigLayers, RigNamed(item.parent), ExporterData.RigModels, RigModelNamed(Some(item.text)));
      rigLayers := UpdateWhere(rigLayers, RigNamed(item.parent), InRigModels(Some(item.text), ItemsUnion(adds)));
      if pair.Some? {
        r := WriteRecords(fi, rigLayers, RigEntry);
      } else {
        r := Ok(());
      }
    }

    /**
      `remove_model_export_item(item)` for the selected names: every rig
      model named as the row, under rigs named as its parent, loses the
      first occurrence of each selected name it lists; the rigs are written
      when something was removed.
    */
    method RemoveModelExportItem(fi: FileInfo, item: TreeItem, removes: seq<string>) returns (r: Result<(), Fault>)
      requires fi.Valid()
      modifies this, fi
      ensures fi.Valid() && modelLayers == old(modelLayers)
      ensures removes == [] ==> rigLayers == old(rigLayers) && fi.State() == old(fi.State()) && r.Ok?
      ensures removes != [] && |old(rigLayers)| > 0 && item.parent.None? ==>
        rigLayers == old(rigLayers) && fi.State() == old(fi.State()) && r == Err(AttributeError)
      ensures removes != [] && (|old(rigLayers)| == 0 || item.parent.Some?) ==>
        rigLayers == MapWhere(old(rigLayers), RigNamed(item.parent), InRigModels(Some(item.text), ItemsWithout(removes))) &&
        (fi.State(), r) ==
          if LastPair(old(rigLayers), RigNamed(item.parent), ExporterData.RigModels, RigModelListing(Some(item.text), removes)).Some?
          then WriteAll(old(fi.State()), rigLayers, RigEntry) else (old(fi.State()), Ok(()))
    {
      if removes == [] {
        return Ok(());
      }
      if |rigLayers| > 0 && item.parent.None? {
        return Err(AttributeError);
      }
      var _, pair := FindLast(rigLayers, RigNamed(item.parent), ExporterData.RigModels, RigModelListing(Some(item.text), removes));
      rigLayers := UpdateWhere(rigLayers, RigNamed(item.parent), InRigModels(Some(item.text), ItemsWithout(removes)));
      if pair.Some? {
        r := WriteRecords(fi, rigLayers, RigEntry);
      } else {
        r := Ok(());
      }
    }
  }

  /**
    Removing export items removes exactly the selected names from a rig model
    whose items have no repeats, and the write happens exactly when that
    model listed one of them.
  */
  lemma RemoveModelExportItemEffect(m: RigModelData, removes: seq<string>)
    requires Distinct(m.exportItems)
    ensures var items := ItemsWithout(removes)(m).exportItems;
      Distinct(items) && (forall x :: x in items <==> x in m.exportItems && x !in removes) &&
      (RigModelListing(m.name, removes)(m) <==> items != m.exportItems)
  {
    WithoutDistinct(m.exportItems, removes);
  }

  /** Adding export items lists the union of the old items and the selection, each once. */
  lemma AddModelExportItemEffect(m: RigModelData, adds: seq<string>)
    ensures var items := ItemsUnion(adds)(m).exportItems;
      Distinct(items) && forall x :: x in items <==> x in m.exportItems || x in adds
  {
  }
}
