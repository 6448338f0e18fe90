/**
  The XML documents the exporter stores for each kind of record
  (`create_model_layer_xml`, `create_actor_layer_xml`, `create_rig_layer_xml`)
  and the readers that rebuild records from them (`populate_models_classes`,
  `populate_actors_classes`, `populate_rig_class`), with the round trips
  between the two.
*/
module Codec {
  import opened Wrappers
  import opened PyCore
  import opened Xml
  import opened Store
  import opened Records

  // ---------------------------------------------------------------------
  // Shared pieces

  /** `e.find(tag).text` for a leaf the writer put at index `i`, after children with other tags. */
  lemma LeafAt(e: Element, i: nat, tag: string, t: Text)
    requires i < |e.children| && e.children[i] == Leaf(tag, t)
    requires forall j | 0 <= j < i :: e.children[j].tag != tag
    ensures FindText(e, tag) == Ok(Stored(t))
  {
    FindAt(e.children, i, tag);
  }

  /** The reader's guarded split: `text.split(', ')` if the text is non-empty, else no items. */
  function SplitItems(t: Text): (r: seq<string>)
    ensures Truthy(t) ==> r == Split(t.value)
    ensures !Truthy(t) ==> r == []
  {
    if Truthy(t) then Split(t.value) else []
  }

  /** The export items a list comes back as, once joined, stored and split again. */
  function ItemsAsRead(xs: seq<string>): seq<string> {
    SplitItems(Stored(Some(Join(xs))))
  }

  lemma {:induction false} JoinEmpty(xs: seq<string>)
    ensures Join(xs) == "" <==> xs == [] || xs == [""]
  {
    if |xs| >= 2 {
      assert |Join(xs)| >= |Sep|;
    }
  }

  /**
    An export list survives the store unchanged exactly when it is not the
    single empty name and no name contains the separator; the empty list
    stays empty. Any list reaches its stored form after one trip.
  */
  lemma ItemsRoundTrip(xs: seq<string>)
    ensures xs == [] ==> ItemsAsRead(xs) == []
    ensures xs != [""] && (forall x | x in xs :: SafeItem(x)) ==> ItemsAsRead(xs) == xs
    ensures ItemsAsRead(ItemsAsRead(xs)) == ItemsAsRead(xs)
    ensures ItemsAsRead(xs) != [""] && forall x | x in ItemsAsRead(xs) :: SafeItem(x)
  {
    JoinEmpty(xs);
    if xs != [] && xs != [""] && forall x | x in xs :: SafeItem(x) {
      SplitJoin(xs);
    }
    var ys := ItemsAsRead(xs);
    if ys != [] {
      JoinSplit(Join(xs));
      SplitNonEmpty(Join(xs));
      JoinEmpty(ys);
      SplitJoin(ys);
    }
  }

  // ---------------------------------------------------------------------
  // The eight export switches

  const FlagTags: seq<string> := [
    "fbx_export_smoothing_groups", "fbx_export_hard_edges", "fbx_export_tangents",
    "fbx_export_smooth_mesh", "fbx_export_animation_only", "fbx_export_instances",
    "fbx_export_zero", "fbx_export_triangulate"]

  function FlagOf(f: Flags, k: nat): Flag
    requires k < 8
  {
    [f.smoothingGroups, f.hardEdges, f.tangents, f.smoothMesh,
     f.animationOnly, f.instances, f.zero, f.triangulate][k]
  }

  /** `ET.SubElement(doc, tag).text = str(flag)`. */
  function FlagLeaf(tag: string, f: Flag): Element {
    Leaf(tag, Some(FlagText(f)))
  }

  function FlagLeaves(f: Flags): (r: seq<Element>)
    ensures |r| == 8
    ensures forall k | 0 <= k < 8 :: r[k] == FlagLeaf(FlagTags[k], FlagOf(f, k))
  {
    seq(8, k requires 0 <= k < 8 => FlagLeaf(FlagTags[k], FlagOf(f, k)))
  }

  /** `strtobool(e.find(tag).text)`. */
  function FlagAt(e: Element, tag: string): Result<Flag, Fault> {
    var t :- FindText(e, tag);
    StrToBool(t)
  }

  function ReadFlags(e: Element): Result<Flags, Fault> {
    var sg :- FlagAt(e, FlagTags[0]);
    var he :- FlagAt(e, FlagTags[1]);
    var tg :- FlagAt(e, FlagTags[2]);
    var sm :- FlagAt(e, FlagTags[3]);
    var ao :- FlagAt(e, FlagTags[4]);
    var ins :- FlagAt(e, FlagTags[5]);
    var ze :- FlagAt(e, FlagTags[6]);
    var tr :- FlagAt(e, FlagTags[7]);
    Ok(Flags(sg, he, tg, sm, ao, ins, ze, tr))
  }

  /** A flag as strtobool hands it back: the same truth, as the int 1 or 0. */
  function FlagAsRead(f: Flag): Flag {
    Numeric(f.truth)
  }

  function FlagsAsRead(f: Flags): Flags {
    Flags(FlagAsRead(f.smoothingGroups), FlagAsRead(f.hardEdges), FlagAsRead(f.tangents),
          FlagAsRead(f.smoothMesh), FlagAsRead(f.animationOnly), FlagAsRead(f.instances),
          FlagAsRead(f.zero), FlagAsRead(f.triangulate))
  }

  lemma FlagTagsDistinct()
    ensures forall i, j | 0 <= i < j < 8 :: FlagTags[i] != FlagTags[j]
  {
  }

  lemma FlagAtBack(e: Element, pre: seq<Element>, f: Flags, k: nat)
    requires k < 8
    requires e.children == pre + FlagLeaves(f)
    requires forall c | c in pre :: c.tag !in FlagTags
    ensures FlagAt(e, FlagTags[k]) == Ok(FlagAsRead(FlagOf(f, k)))
  {
    FlagTagsDistinct();
    var i := |pre| + k;
    assert e.children[i] == FlagLeaf(FlagTags[k], FlagOf(f, k));
    forall j | 0 <= j < i
      ensures e.children[j].tag != FlagTags[k]
    {
      if j < |pre| {
        assert e.children[j] in pre;
      } else {
        assert e.children[j] == FlagLeaves(f)[j - |pre|];
      }
    }
    LeafAt(e, i, FlagTags[k], Some(FlagText(FlagOf(f, k))));
    FlagRoundTrip(FlagOf(f, k));
  }

  /** The eight switches written after `pre` read back with their truth values kept. */
  lemma ReadFlagsBack(e: Element, pre: seq<Element>, f: Flags)
    requires e.children == pre + FlagLeaves(f)
    requires forall c | c in pre :: c.tag !in FlagTags
    ensures ReadFlags(e) == Ok(FlagsAsRead(f))
  {
    FlagAtBack(e, pre, f, 0);
    FlagAtBack(e, pre, f, 1);
    FlagAtBack(e, pre, f, 2);
    FlagAtBack(e, pre, f, 3);
    FlagAtBack(e, pre, f, 4);
    FlagAtBack(e, pre, f, 5);
    FlagAtBack(e, pre, f, 6);
    FlagAtBack(e, pre, f, 7);
  }

  // ---------------------------------------------------------------------
  // Model layers

  function ModelFields(m: ModelData): seq<Element> {
    [Leaf("name", m.name), Leaf("uuid", m.uuid), Leaf("path", m.path),
     Leaf("export_items", Some(Join(m.exportItems))),
     FlagLeaf("fbx_export_override_layer_options", m.overrideLayerOptions),
     FlagLeaf("fbx_export_override_layer_path", m.overrideLayerPath)]
  }

  /** The `model` element of one model. */
  function ModelXml(m: ModelData): Element {
    Node(ModelStr, map[], ModelFields(m) + FlagLeaves(m.flags))
  }

  function ModelsXml(ms: seq<ModelData>): (r: seq<Element>)
    ensures |r| == |ms| && forall i | 0 <= i < |ms| :: r[i] == ModelXml(ms[i])
  {
    seq(|ms|, i requires 0 <= i < |ms| => ModelXml(ms[i]))
  }

  function LayerFields(l: LayerData): seq<Element> {
    [Node(ModelsStr, map[], ModelsXml(l.models)),
     Leaf("name", l.name), Leaf("path", l.path),
     FlagLeaf("fbx_export_override_path", l.overridePath),
     FlagLeaf("fbx_export_override_options", l.overrideOptions)]
  }

  /** `create_model_layer_xml`: the document stored for a model layer. */
  function LayerXml(l: LayerData): Element {
    Node(RootStr, map[], [Node(ModelLayerStr, map[], LayerFields(l) + FlagLeaves(l.flags))])
  }

  /** One `model` element read back as a `ModelData`. */
  function ReadModel(e: Element): (r: Result<ModelData, Fault>)
    ensures r.Ok? ==> r.value.exportVersion.None? && r.value.color.None?
  {
    var name :- FindText(e, "name");
    var path :- FindText(e, "path");
    var uuid :- FindText(e, "uuid");
    var items :- FindText(e, "export_items");
    var overrideOptions :- FlagAt(e, "fbx_export_override_layer_options");
    var overridePath :- FlagAt(e, "fbx_export_override_layer_path");
    var flags :- ReadFlags(e);
    Ok(ModelData(name, SplitItems(items), path, None, uuid, None, overridePath, overrideOptions, flags))
  }

  function ReadModels(es: seq<Element>): (r: Result<seq<ModelData>, Fault>)
    ensures r.Ok? ==> |r.value| == |es| && forall i | 0 <= i < |es| :: ReadModel(es[i]) == Ok(r.value[i])
    ensures r.Ok? ==> forall m | m in r.value :: m.exportVersion.None? && m.color.None?
    decreases |es|
  {
    if es == [] then Ok([])
    else
      var m :- ReadModel(es[0]);
      var ms :- ReadModels(es[1..]);
      assert forall i | 0 <= i < |es| :: ReadModel(es[i]) == Ok(([m] + ms)[i]) by {
        forall i | 0 <= i < |es| ensures ReadModel(es[i]) == Ok(([m] + ms)[i]) {
          if i > 0 {
            assert es[i] == es[1..][i - 1] && ([m] + ms)[i] == ms[i - 1];
          }
        }
      }
      Ok([m] + ms)
  }

  /**
    `populate_models_classes(value, key)`: the layer's name comes from the key
    with every occurrence of the prefix removed; every switch goes through
    strtobool; a model's export items are split only when non-empty.
  */
  function ReadLayer(key: string, v: Value): (r: Result<LayerData, Fault>)
    ensures v.Raw? ==> r == Err(ParseError)
    ensures r.Ok? ==> (r.value.name == Some(RemoveAll(key, ModelLayerIdentifier)) &&
      r.value.layerType.None? && r.value.color.None?)
    ensures r.Ok? ==> forall m | m in r.value.models :: m.exportVersion.None? && m.color.None?
  {
    match v
    case Raw(_) => Err(ParseError)
    case Doc(root) =>
      var layer :- FindChild(root, ModelLayerStr);
      var path :- FindText(layer, "path");
      var overridePath :- FlagAt(layer, "fbx_export_override_path");
      var overrideOptions :- FlagAt(layer, "fbx_export_override_options");
      var flags :- ReadFlags(layer);
      var models :- ReadModels(FindAll(layer, ModelXmlPath.0, ModelXmlPath.1));
      Ok(LayerData(Some(RemoveAll(key, ModelLayerIdentifier)), path, None, models, None,
                   overridePath, overrideOptions, flags))
  }

  /** `populate_models_classes_from_fileInfo(key)`: nothing when the key is absent. */
  function ReadLayerFromTable(t: Table, key: string): (r: Result<Option<LayerData>, Fault>)
    ensures key !in t.vals ==> r == Ok(None)
    ensures key in t.vals ==> (r.Ok? <==> ReadLayer(key, t.vals[key]).Ok?)
    ensures key in t.vals && r.Ok? ==> r.value == Some(ReadLayer(key, t.vals[key]).value)
  {
    if key in t.vals then
      var l :- ReadLayer(key, t.vals[key]);
      Ok(Some(l))
    else Ok(None)
  }

  /** The key `write_model_layer_data_to_fileinfo` files a layer under, and its document. */
  function LayerEntry(l: LayerData): (r: Result<(string, Value), Fault>)
    ensures r.Ok? <==> l.name.Some?
    ensures r.Ok? ==> r.value == (ModelLayerIdentifier + l.name.value, Doc(LayerXml(l)))
  {
    var k :- Concat(ModelLayerIdentifier, l.name);
    Ok((k, Doc(LayerXml(l))))
  }

  /** A model as it reads back after being written. */
  function ModelAsRead(m: ModelData): ModelData {
    ModelData(Stored(m.name), ItemsAsRead(m.exportItems), Stored(m.path), None, Stored(m.uuid), None,
              FlagAsRead(m.overrideLayerPath), FlagAsRead(m.overrideLayerOptions), FlagsAsRead(m.flags))
  }

  function ModelsAsRead(ms: seq<ModelData>): (r: seq<ModelData>)
    ensures |r| == |ms| && forall i | 0 <= i < |ms| :: r[i] == ModelAsRead(ms[i])
  {
    seq(|ms|, i requires 0 <= i < |ms| => ModelAsRead(ms[i]))
  }

  /** A layer as it reads back from `key` after being written. */
  function LayerAsRead(l: LayerData, key: string): LayerData {
    LayerData(Some(RemoveAll(key, ModelLayerIdentifier)), Stored(l.path), None, ModelsAsRead(l.models), None,
              FlagAsRead(l.overridePath), FlagAsRead(l.overrideOptions), FlagsAsRead(l.flags))
  }

  /** `ReadModel` from the results of its lookups. */
  lemma ReadModelOf(e: Element, name: Text, path: Text, uuid: Text, items: Text,
                    overrideOptions: Flag, overridePath: Flag, flags: Flags)
    requires FindText(e, "name") == Ok(name) && FindText(e, "path") == Ok(path)
    requires FindText(e, "uuid") == Ok(uuid) && FindText(e, "export_items") == Ok(items)
    requires FlagAt(e, "fbx_export_override_layer_options") == Ok(overrideOptions)
    requires FlagAt(e, "fbx_export_override_layer_path") == Ok(overridePath)
    requires ReadFlags(e) == Ok(flags)
    ensures ReadModel(e) == Ok(ModelData(name, SplitItems(items), path, None, uuid, None, overridePath, overrideOptions, flags))
  {
  }

  /** The lookups `ReadModel` makes in a written `model` element. */
  lemma ModelLookups(m: ModelData)
    ensures FindText(ModelXml(m), "name") == Ok(Stored(m.name))
    ensures FindText(ModelXml(m), "uuid") == Ok(Stored(m.uuid))
    ensures FindText(ModelXml(m), "path") == Ok(Stored(m.path))
    ensures FindText(ModelXml(m), "export_items") == Ok(Stored(Some(Join(m.exportItems))))
  {
    var e := ModelXml(m);
    LeafAt(e, 0, "name", m.name);
    LeafAt(e, 1, "uuid", m.uuid);
    LeafAt(e, 2, "path", m.path);
    LeafAt(e, 3, "export_items", Some(Join(m.exportItems)));
  }

  lemma ModelFlagLookups(m: ModelData)
    ensures FlagAt(ModelXml(m), "fbx_export_override_layer_options") == Ok(FlagAsRead(m.overrideLayerOptions))
    ensures FlagAt(ModelXml(m), "fbx_export_override_layer_path") == Ok(FlagAsRead(m.overrideLayerPath))
    ensures ReadFlags(ModelXml(m)) == Ok(FlagsAsRead(m.flags))
  {
    var e := ModelXml(m);
    LeafAt(e, 4, "fbx_export_override_layer_options", Some(FlagText(m.overrideLayerOptions)));
    LeafAt(e, 5, "fbx_export_override_layer_path", Some(FlagText(m.overrideLayerPath)));
    FlagRoundTrip(m.overrideLayerOptions);
    FlagRoundTrip(m.overrideLayerPath);
    ReadFlagsBack(e, ModelFields(m), m.flags);
  }

  lemma ReadModelBack(m: ModelData)
    ensures ReadModel(ModelXml(m)) == Ok(ModelAsRead(m))
  {
    ModelLookups(m);
    ModelFlagLookups(m);
    ReadModelOf(ModelXml(m), Stored(m.name), Stored(m.path), Stored(m.uuid), Stored(Some(Join(m.exportItems))),
                FlagAsRead(m.overrideLayerOptions), FlagAsRead(m.overrideLayerPath), FlagsAsRead(m.flags));
  }

  /** `ReadModels` succeeds with `xs` when each element reads as the matching entry of `xs`. */
  lemma {:induction false} ReadModelsOf(es: seq<Element>, xs: seq<ModelData>)
    requires |es| == |xs| && forall i | 0 <= i < |es| :: ReadModel(es[i]) == Ok(xs[i])
    ensures ReadModels(es) == Ok(xs)
    decreases |es|
  {
    if es != [] {
      forall i | 0 <= i < |es| - 1 ensures ReadModel(es[1..][i]) == Ok(xs[1..][i]) {
        assert es[1..][i] == es[i + 1] && xs[1..][i] == xs[i + 1];
      }
      ReadModelsOf(es[1..], xs[1..]);
      assert ReadModel(es[0]) == Ok(xs[0]);
      assert ReadModels(es) == Ok([xs[0]] + xs[1..]);
      assert xs == [xs[0]] + xs[1..];
    }
  }

  lemma ReadModelsBack(ms: seq<ModelData>)
    ensures ReadModels(ModelsXml(ms)) == Ok(ModelsAsRead(ms))
  {
    forall i | 0 <= i < |ms|
      ensures ReadModel(ModelsXml(ms)[i]) == Ok(ModelsAsRead(ms)[i])
    {
      ReadModelBack(ms[i]);
    }
    ReadModelsOf(ModelsXml(ms), ModelsAsRead(ms));
  }

  /** `ReadLayer` from the results of its lookups. */
  lemma ReadLayerOf(key: string, root: Element, layer: Element, path: Text, overridePath: Flag,
                    overrideOptions: Flag, flags: Flags, models: seq<ModelData>)
    requires FindChild(root, ModelLayerStr) == Ok(layer)
    requires FindText(layer, "path") == Ok(path)
    requires FlagAt(layer, "fbx_export_override_path") == Ok(overridePath)
    requires FlagAt(layer, "fbx_export_override_options") == Ok(overrideOptions)
    requires ReadFlags(layer) == Ok(flags)
    requires ReadModels(FindAll(layer, ModelsStr, ModelStr)) == Ok(models)
    ensures ReadLayer(key, Doc(root)) == Ok(LayerData(Some(RemoveAll(key, ModelLayerIdentifier)), path, None,
                                                      models, None, overridePath, overrideOptions, flags))
  {
  }

  /** The lookups `ReadLayer` makes in the `layers` element of a written layer. */
  lemma LayerLookups(l: LayerData)
    ensures FindChild(LayerXml(l), ModelLayerStr) == Ok(LayerXml(l).children[0])
    ensures var layer := LayerXml(l).children[0];
      FindText(layer, "path") == Ok(Stored(l.path)) &&
      FlagAt(layer, "fbx_export_override_path") == Ok(FlagAsRead(l.overridePath)) &&
      FlagAt(layer, "fbx_export_override_options") == Ok(FlagAsRead(l.overrideOptions))
  {
    var root := LayerXml(l);
    var layer := root.children[0];
    FindAt(root.children, 0, ModelLayerStr);
    LeafAt(layer, 2, "path", l.path);
    LeafAt(layer, 3, "fbx_export_override_path", Some(FlagText(l.overridePath)));
    LeafAt(layer, 4, "fbx_export_override_options", Some(FlagText(l.overrideOptions)));
    FlagRoundTrip(l.overridePath);
    FlagRoundTrip(l.overrideOptions);
  }

  lemma LayerFlags(l: LayerData)
    ensures ReadFlags(LayerXml(l).children[0]) == Ok(FlagsAsRead(l.flags))
  {
    ReadFlagsBack(LayerXml(l).children[0], LayerFields(l), l.flags);
  }

  lemma LayerModels(l: LayerData)
    ensures FindAll(LayerXml(l).children[0], ModelsStr, ModelStr) == ModelsXml(l.models)
  {
    var layer := LayerXml(l).children[0];
    forall j | 0 <= j < |layer.children| && j != 0
      ensures layer.children[j].tag != ModelsStr
    {
      if j >= 5 {
        assert layer.children[j] == FlagLeaves(l.flags)[j - 5];
      }
    }
    FindAllSingle(layer, 0, ModelsStr, ModelStr);
  }

  /**
    Model-layer round trip: reading a written layer back from any key gives the
    same path, models and switch truths; the name is what the key yields.
  */
  lemma LayerRoundTrip(l: LayerData, key: string)
    ensures ReadLayer(key, Doc(LayerXml(l))) == Ok(LayerAsRead(l, key))
  {
    LayerLookups(l);
    LayerFlags(l);
    LayerModels(l);
    ReadModelsBack(l.models);
    ReadLayerOf(key, LayerXml(l), LayerXml(l).children[0], Stored(l.path), FlagAsRead(l.overridePath),
                FlagAsRead(l.overrideOptions), FlagsAsRead(l.flags), ModelsAsRead(l.models));
  }

  /** No text is empty, every switch is numeric, and nothing the writer drops is set. */
  predicate CanonicalText(t: Text) {
    t.None? || t.value != ""
  }

  predicate CanonicalFlags(f: Flags) {
    FlagsAsRead(f) == f
  }

  predicate CanonicalModel(m: ModelData) {
    CanonicalText(m.name) && CanonicalText(m.path) && CanonicalText(m.uuid) &&
    m.exportVersion.None? && m.color.None? &&
    m.exportItems != [""] && (forall x | x in m.exportItems :: SafeItem(x)) &&
    m.overrideLayerPath.Numeric? && m.overrideLayerOptions.Numeric? && CanonicalFlags(m.flags)
  }

  /** A layer in the form the store keeps: its name does not contain the prefix. */
  predicate CanonicalLayer(l: LayerData) {
    l.name.Some? && !Contains(l.name.value, ModelLayerIdentifier) &&
    CanonicalText(l.path) && l.layerType.None? && l.color.None? &&
    l.overridePath.Numeric? && l.overrideOptions.Numeric? && CanonicalFlags(l.flags) &&
    forall i | 0 <= i < |l.models| :: CanonicalModel(l.models[i])
  }

  lemma ModelAsReadCanonical(m: ModelData)
    ensures CanonicalModel(ModelAsRead(m))
    ensures CanonicalModel(m) ==> ModelAsRead(m) == m
  {
    ItemsRoundTrip(m.exportItems);
  }

  /** Reading back from `model_layer_identifier + name` gives a layer in stored form. */
  lemma LayerAsReadCanonical(l: LayerData)
    requires l.name.Some? && !Contains(l.name.value, ModelLayerIdentifier)
    ensures LayerAsRead(l, ModelLayerIdentifier + l.name.value).name == l.name
    ensures CanonicalLayer(LayerAsRead(l, ModelLayerIdentifier + l.name.value))
  {
    RemoveAllKey(ModelLayerIdentifier, l.name.value);
    forall i | 0 <= i < |l.models|
      ensures CanonicalModel(ModelAsRead(l.models[i]))
    {
      ModelAsReadCanonical(l.models[i]);
    }
  }

  /** A layer already in stored form is a fixed point of writing and reading. */
  lemma LayerAsReadExact(l: LayerData)
    requires CanonicalLayer(l)
    ensures LayerAsRead(l, ModelLayerIdentifier + l.name.value) == l
  {
    RemoveAllKey(ModelLayerIdentifier, l.name.value);
    forall i | 0 <= i < |l.models|
      ensures ModelAsRead(l.models[i]) == l.models[i]
    {
      ModelAsReadCanonical(l.models[i]);
    }
  }

  /**
    A layer in stored form reads back from `model_layer_identifier + name` as
    exactly itself; any layer whose name does not contain the prefix reaches
    stored form after one write and read.
  */
  lemma LayerRoundTripExact(l: LayerData)
    requires l.name.Some? && !Contains(l.name.value, ModelLayerIdentifier)
    ensures var l' := ReadLayer(ModelLayerIdentifier + l.name.value, Doc(LayerXml(l)));
      l'.Ok? && CanonicalLayer(l'.value) && l'.value.name == l.name
    ensures CanonicalLayer(l) ==> ReadLayer(ModelLayerIdentifier + l.name.value, Doc(LayerXml(l))) == Ok(l)
  {
    LayerRoundTrip(l, ModelLayerIdentifier + l.name.value);
    LayerAsReadCanonical(l);
    if CanonicalLayer(l) {
      LayerAsReadExact(l);
    }
  }

  // ---------------------------------------------------------------------
  // Actors

  function AnimationXml(a: AnimationData): Element {
    Node("animation", map["node_type" := "animation"],
         [Leaf("animation_name", a.animName), Leaf("path", a.path), Leaf("override_path", a.overridePath),
          Leaf("start", a.startFrame), Leaf("end", a.endFrame), Leaf("muted", a.mutedLayers)])
  }

  function AnimationsXml(as_: seq<AnimationData>): (r: seq<Element>)
    ensures |r| == |as_| && forall i | 0 <= i < |as_| :: r[i] == AnimationXml(as_[i])
  {
    seq(|as_|, i requires 0 <= i < |as_| => AnimationXml(as_[i]))
  }

  function ActorFields(c: ActorLayerData, items: string): seq<Element> {
    [Node(AnimationsStr, map["node_type" := AnimationsStr], AnimationsXml(c.animations)),
     Leaf("name", c.name), Leaf("anim_path", c.path), Leaf("root", c.root),
     Leaf("export_items", Some(items))]
  }

  /** `create_actor_layer_xml`: joining the export items raises TypeError on a None item. */
  function ActorXml(c: ActorLayerData): (r: Result<Element, Fault>)
    ensures r.Ok? <==> forall i | 0 <= i < |c.exportItems| :: c.exportItems[i].Some?
  {
    var items :- JoinTexts(c.exportItems);
    Ok(ActorDoc(c, items))
  }

  function ActorDoc(c: ActorLayerData, items: string): Element {
    Node(RootStr, map[], [Node(ModelLayerStr, map["node_type" := "actor"], ActorFields(c, items))])
  }

  /**
    One `animation` element read back. The animation's `name` is the actor's,
    and its path is first set from the actor's `anim_path` and then
    overwritten with the animation's own.
  */
  function ReadAnimation(actor: Element, e: Element): Result<AnimationData, Fault> {
    var name :- FindText(actor, "name");
    var animName :- FindText(e, "animation_name");
    var actorPath :- FindText(actor, "anim_path");
    var overridePath :- FindText(e, "override_path");
    var start :- FindText(e, "start");
    var end :- FindText(e, "end");
    var path :- FindText(e, "path");
    var muted :- FindText(e, "muted");
    Ok(AnimationData(None, animName, start, end, path, overridePath, None, None, muted, None, name))
  }

  function ReadAnimations(actor: Element, es: seq<Element>): (r: Result<seq<AnimationData>, Fault>)
    ensures r.Ok? ==> |r.value| == |es| && forall i | 0 <= i < |es| :: ReadAnimation(actor, es[i]) == Ok(r.value[i])
    decreases |es|
  {
    if es == [] then Ok([])
    else
      var a :- ReadAnimation(actor, es[0]);
      var as_ :- ReadAnimations(actor, es[1..]);
      assert forall i | 1 <= i < |es| :: es[i] == es[1..][i - 1];
      Ok([a] + as_)
  }

  /**
    `populate_actors_classes(key)` with the decoding of the stored export-item
    text left as a parameter. A blank entry gives a fresh actor; the name
    comes from the key.
  */
  function ReadActorUsing(key: string, v: Value, decode: Text -> seq<Text>): (r: Result<ActorLayerData, Fault>)
    ensures v == Raw("") ==> r == Ok(NewActorLayerData())
    ensures v.Raw? && v.text != "" ==> r == Err(ParseError)
    ensures v.Doc? && r.Ok? ==> (r.value.name == Some(RemoveAll(key, ActorIdentifier)) &&
      r.value.exportVersion.None? && r.value.uuid.None?)
  {
    match v
    case Raw(s) => if s == "" then Ok(NewActorLayerData()) else Err(ParseError)
    case Doc(root) =>
      var actor :- FindChild(root, ModelLayerStr);
      var path :- FindText(actor, "anim_path");
      var actorRoot :- FindText(actor, "root");
      var items :- FindText(actor, "export_items");
      var anims :- ReadAnimations(actor, FindAll(actor, AnimationsStr, "animation"));
      Ok(ActorLayerData(Some(RemoveAll(key, ActorIdentifier)), decode(items), path, anims, None, None, actorRoot))
  }

  /** As the source reads it: the stored text is appended as one item, not split. */
  function AppendRaw(t: Text): seq<Text> {
    [t]
  }

  function Texts(xs: seq<string>): (r: seq<Text>)
    ensures |r| == |xs| && forall i | 0 <= i < |xs| :: r[i] == Some(xs[i])
  {
    seq(|xs|, i requires 0 <= i < |xs| => Some(xs[i]))
  }

  /** Split like every other reader, guarded like the model-layer reader. */
  function SplitTexts(t: Text): seq<Text> {
    Texts(SplitItems(t))
  }

  /**
    The source's actor reader fails exactly where the corrected one does; on a
    document it reads the stored export-item text as a single item, whose
    splitting is the corrected reader's list, and agrees on every other field.
  */
  function ReadActorAsWritten(key: string, v: Value): (r: Result<ActorLayerData, Fault>)
    ensures r.Ok? <==> ReadActor(key, v).Ok?
    ensures v.Doc? && r.Ok? ==> (|r.value.exportItems| == 1 &&
      SplitTexts(r.value.exportItems[0]) == ReadActor(key, v).value.exportItems &&
      r.value.(exportItems := ReadActor(key, v).value.exportItems) == ReadActor(key, v).value)
  {
    ReadActorUsing(key, v, AppendRaw)
  }

  /** The actor reader corrected: export items are split back into a list, none of them None. */
  function ReadActor(key: string, v: Value): (r: Result<ActorLayerData, Fault>)
    ensures r.Ok? ==> forall x | x in r.value.exportItems :: x.Some?
  {
    ReadActorUsing(key, v, SplitTexts)
  }

  function ActorEntry(c: ActorLayerData): (r: Result<(string, Value), Fault>)
    ensures r.Ok? <==> c.name.Some? && ActorXml(c).Ok?
    ensures r.Ok? ==> r.value == (ActorIdentifier + c.name.value, Doc(ActorXml(c).value))
  {
    var k :- Concat(ActorIdentifier, c.name);
    var doc :- ActorXml(c);
    Ok((k, Doc(doc)))
  }

  function AnimationAsRead(a: AnimationData, actorName: Text): AnimationData {
    AnimationData(None, Stored(a.animName), Stored(a.startFrame), Stored(a.endFrame), Stored(a.path),
                  Stored(a.overridePath), None, None, Stored(a.mutedLayers), None, Stored(actorName))
  }

  function TextValues(xs: seq<Text>): (r: seq<string>)
    requires forall i | 0 <= i < |xs| :: xs[i].Some?
    ensures |r| == |xs| && forall i | 0 <= i < |xs| :: r[i] == xs[i].value
  {
    seq(|xs|, i requires 0 <= i < |xs| => xs[i].value)
  }

  /** An actor as it reads back from `key`, with the export-item decoding the reader uses. */
  function ActorAsReadUsing(c: ActorLayerData, key: string, decode: Text -> seq<Text>): ActorLayerData
    requires forall i | 0 <= i < |c.exportItems| :: c.exportItems[i].Some?
  {
    ActorLayerData(Some(RemoveAll(key, ActorIdentifier)), decode(Stored(Some(Join(TextValues(c.exportItems))))),
                   Stored(c.path), AnimationsAsRead(c.animations, c.name), None, None, Stored(c.root))
  }

  function AnimationsAsRead(as_: seq<AnimationData>, actorName: Text): (r: seq<AnimationData>)
    ensures |r| == |as_| && forall i | 0 <= i < |as_| :: r[i] == AnimationAsRead(as_[i], actorName)
  {
    seq(|as_|, i requires 0 <= i < |as_| => AnimationAsRead(as_[i], actorName))
  }

  /** `ReadAnimation` from the results of its lookups. */
  lemma ReadAnimationOf(actor: Element, e: Element, name: Text, actorPath: Text, animName: Text, path: Text,
                        overridePath: Text, start: Text, end: Text, muted: Text)
    requires FindText(actor, "name") == Ok(name) && FindText(actor, "anim_path") == Ok(actorPath)
    requires FindText(e, "animation_name") == Ok(animName) && FindText(e, "path") == Ok(path)
    requires FindText(e, "override_path") == Ok(overridePath) && FindText(e, "start") == Ok(start)
    requires FindText(e, "end") == Ok(end) && FindText(e, "muted") == Ok(muted)
    ensures ReadAnimation(actor, e) == Ok(AnimationData(None, animName, start, end, path, overridePath,
                                                        None, None, muted, None, name))
  {
  }

  lemma AnimationLookupsFirst(a: AnimationData)
    ensures FindText(AnimationXml(a), "animation_name") == Ok(Stored(a.animName))
    ensures FindText(AnimationXml(a), "path") == Ok(Stored(a.path))
    ensures FindText(AnimationXml(a), "override_path") == Ok(Stored(a.overridePath))
  {
    var e := AnimationXml(a);
    LeafAt(e, 0, "animation_name", a.animName);
    LeafAt(e, 1, "path", a.path);
    LeafAt(e, 2, "override_path", a.overridePath);
  }

  lemma AnimationLookupsLast(a: AnimationData)
    ensures FindText(AnimationXml(a), "start") == Ok(Stored(a.startFrame))
    ensures FindText(AnimationXml(a), "end") == Ok(Stored(a.endFrame))
    ensures FindText(AnimationXml(a), "muted") == Ok(Stored(a.mutedLayers))
  {
    var e := AnimationXml(a);
    LeafAt(e, 3, "start", a.startFrame);
    LeafAt(e, 4, "end", a.endFrame);
    LeafAt(e, 5, "muted", a.mutedLayers);
  }

  /** The lookups the actor reader makes in a written `layers` element. */
  lemma ActorLookups(actor: Element, c: ActorLayerData, items: string)
    requires actor.children == ActorFields(c, items)
    ensures FindText(actor, "name") == Ok(Stored(c.name))
    ensures FindText(actor, "anim_path") == Ok(Stored(c.path))
    ensures FindText(actor, "root") == Ok(Stored(c.root))
    ensures FindText(actor, "export_items") == Ok(Stored(Some(items)))
  {
    LeafAt(actor, 1, "name", c.name);
    LeafAt(actor, 2, "anim_path", c.path);
    LeafAt(actor, 3, "root", c.root);
    LeafAt(actor, 4, "export_items", Some(items));
  }

  lemma ReadAnimationBack(actor: Element, c: ActorLayerData, items: string, a: AnimationData)
    requires actor.children == ActorFields(c, items)
    ensures ReadAnimation(actor, AnimationXml(a)) == Ok(AnimationAsRead(a, c.name))
  {
    ActorLookups(actor, c, items);
    AnimationLookupsFirst(a);
    AnimationLookupsLast(a);
    ReadAnimationOf(actor, AnimationXml(a), Stored(c.name), Stored(c.path), Stored(a.animName), Stored(a.path),
                    Stored(a.overridePath), Stored(a.startFrame), Stored(a.endFrame), Stored(a.mutedLayers));
  }

  lemma {:induction false} ReadAnimationsOf(actor: Element, es: seq<Element>, xs: seq<AnimationData>)
    requires |es| == |xs| && forall i | 0 <= i < |es| :: ReadAnimation(actor, es[i]) == Ok(xs[i])
    ensures ReadAnimations(actor, es) == Ok(xs)
    decreases |es|
  {
    if es != [] {
      ReadAnimationsOf(actor, es[1..], xs[1..]);
      assert xs == [xs[0]] + xs[1..];
    }
  }

  lemma ReadAnimationsBack(actor: Element, c: ActorLayerData, items: string)
    requires actor.children == ActorFields(c, items)
    ensures ReadAnimations(actor, AnimationsXml(c.animations)) == Ok(AnimationsAsRead(c.animations, c.name))
  {
    forall i | 0 <= i < |c.animations|
      ensures ReadAnimation(actor, AnimationsXml(c.animations)[i]) == Ok(AnimationsAsRead(c.animations, c.name)[i])
    {
      ReadAnimationBack(actor, c, items, c.animations[i]);
    }
    ReadAnimationsOf(actor, AnimationsXml(c.animations), AnimationsAsRead(c.animations, c.name));
  }

  /** `ReadActorUsing` on a document from the results of its lookups. */
  lemma ReadActorOf(key: string, root: Element, actor: Element, path: Text, actorRoot: Text, items: Text,
                    anims: seq<AnimationData>, decode: Text -> seq<Text>)
    requires FindChild(root, ModelLayerStr) == Ok(actor)
    requires FindText(actor, "anim_path") == Ok(path) && FindText(actor, "root") == Ok(actorRoot)
    requires FindText(actor, "export_items") == Ok(items)
    requires ReadAnimations(actor, FindAll(actor, AnimationsStr, "animation")) == Ok(anims)
    ensures ReadActorUsing(key, Doc(root), decode)
         == Ok(ActorLayerData(Some(RemoveAll(key, ActorIdentifier)), decode(items), path, anims, None, None, actorRoot))
  {
  }

  lemma ActorDocShape(c: ActorLayerData, items: string)
    ensures FindChild(ActorDoc(c, items), ModelLayerStr) == Ok(ActorDoc(c, items).children[0])
    ensures FindAll(ActorDoc(c, items).children[0], AnimationsStr, "animation") == AnimationsXml(c.animations)
  {
    var root := ActorDoc(c, items);
    FindAt(root.children, 0, ModelLayerStr);
    FindAllSingle(root.children[0], 0, AnimationsStr, "animation");
  }

  /** Actor round trip, for either decoding of the export-item text. */
  lemma ActorRoundTripUsing(c: ActorLayerData, key: string, decode: Text -> seq<Text>)
    requires ActorXml(c).Ok?
    ensures ReadActorUsing(key, Doc(ActorXml(c).value), decode) == Ok(ActorAsReadUsing(c, key, decode))
  {
    var items := JoinTexts(c.exportItems).value;
    var root := ActorDoc(c, items);
    assert ActorXml(c).value == root;
    ActorDocShape(c, items);
    ActorLookups(root.children[0], c, items);
    ReadAnimationsBack(root.children[0], c, items);
    ReadActorOf(key, root, root.children[0], Stored(c.path), Stored(c.root), Stored(Some(items)),
                AnimationsAsRead(c.animations, c.name), decode);
  }

  /**
    As the source reads actors back, a written export list returns as a
    one-element list holding the joined text, and an empty list returns as
    `[None]`.
  */
  lemma ActorItemsComeBackJoined(c: ActorLayerData, key: string)
    requires ActorXml(c).Ok?
    ensures ReadActorAsWritten(key, Doc(ActorXml(c).value)).Ok?
    ensures ReadActorAsWritten(key, Doc(ActorXml(c).value)).value.exportItems
         == [Stored(Some(Join(TextValues(c.exportItems))))]
    ensures c.exportItems == [] ==> ReadActorAsWritten(key, Doc(ActorXml(c).value)).value.exportItems == [None]
  {
    ActorRoundTripUsing(c, key, AppendRaw);
  }

  /**
    An actor with no export items survives one write and read as the source
    reads it, but the record it reads back cannot be written again: joining
    its `[None]` export list raises TypeError.
  */
  lemma ActorEmptyItemsBreakNextWrite(c: ActorLayerData, key: string)
    requires c.exportItems == []
    ensures ActorXml(c).Ok?
    ensures ReadActorAsWritten(key, Doc(ActorXml(c).value)).Ok?
    ensures ActorXml(ReadActorAsWritten(key, Doc(ActorXml(c).value)).value) == Err(TypeError)
  {
    ActorItemsComeBackJoined(c, key);
  }

  /**
    With the export items split back, every actor that can be written reads
    back as one that can be written again, its export list restored whenever
    no item contains the separator and the list is not the single empty name.
  */
  lemma ActorRoundTrip(c: ActorLayerData, key: string)
    requires ActorXml(c).Ok?
    ensures ReadActor(key, Doc(ActorXml(c).value)).Ok?
    ensures ActorXml(ReadActor(key, Doc(ActorXml(c).value)).value).Ok?
    ensures var xs := TextValues(c.exportItems);
      xs != [""] && (forall x | x in xs :: SafeItem(x)) ==>
        ReadActor(key, Doc(ActorXml(c).value)).value.exportItems == c.exportItems
  {
    ActorRoundTripUsing(c, key, SplitTexts);
    var xs := TextValues(c.exportItems);
    ItemsRoundTrip(xs);
    if xs != [""] && (forall x | x in xs :: SafeItem(x)) {
      assert Texts(xs) == c.exportItems;
    }
  }

  // ---------------------------------------------------------------------
  // Rigs

  function RigModelXml(m: RigModelData): Element {
    Node(ModelStr, map["node_type" := ModelStr],
         [Leaf("name", m.name), Leaf("uuid", m.uuid), Leaf("path", m.path),
          Leaf("influences", Some(Str(m.influences))),
          Leaf("export_items", Some(Join(m.exportItems)))])
  }

  function RigModelsXml(ms: seq<RigModelData>): (r: seq<Element>)
    ensures |r| == |ms| && forall i | 0 <= i < |ms| :: r[i] == RigModelXml(ms[i])
  {
    seq(|ms|, i requires 0 <= i < |ms| => RigModelXml(ms[i]))
  }

  function RigFields(r: RigLayerData): seq<Element> {
    [Node(ModelsStr, map["node_type" := ModelsStr], RigModelsXml(r.models)),
     Leaf("name", r.name), Leaf("model_name", r.modelName), Leaf("root", r.root),
     Leaf("rig_path", r.rigPath), Leaf("animation_path", r.animationPath), Leaf("uuid", r.uuid),
     Leaf("export_items", Some(Join(r.exportItems)))]
  }

  /** `create_rig_layer_xml`: the document stored for a rig. */
  function RigXml(r: RigLayerData): Element {
    Node(RootStr, map[], [Node(RigsStr, map["node_type" := RigsStr], RigFields(r))])
  }

  function ReadRigModel(e: Element, decode: Text -> Result<seq<string>, Fault>): (r: Result<RigModelData, Fault>)
    ensures r.Ok? ==> r.value.exportVersion.None?
  {
    var name :- FindText(e, "name");
    var path :- FindText(e, "path");
    var uuid :- FindText(e, "uuid");
    var influences :- FindText(e, "influences");
    var itemsText :- FindText(e, "export_items");
    var items :- decode(itemsText);
    Ok(RigModelData(name, path, None, items, uuid, influences))
  }

  function ReadRigModels(es: seq<Element>, decode: Text -> Result<seq<string>, Fault>): (r: Result<seq<RigModelData>, Fault>)
    ensures r.Ok? ==> |r.value| == |es| && forall i | 0 <= i < |es| :: ReadRigModel(es[i], decode) == Ok(r.value[i])
    ensures r.Ok? ==> forall m | m in r.value :: m.exportVersion.None?
    decreases |es|
  {
    if es == [] then Ok([])
    else
      var m :- ReadRigModel(es[0], decode);
      var ms :- ReadRigModels(es[1..], decode);
      assert forall i | 0 <= i < |es| :: ReadRigModel(es[i], decode) == Ok(([m] + ms)[i]) by {
        forall i | 0 <= i < |es| ensures ReadRigModel(es[i], decode) == Ok(([m] + ms)[i]) {
          if i > 0 {
            assert es[i] == es[1..][i - 1] && ([m] + ms)[i] == ms[i - 1];
          }
        }
      }
      Ok([m] + ms)
  }

  /**
    `populate_rig_class(key)` on a stored value, with the decoding of the
    export-item text left as a parameter. The rig's name comes from the
    document, not the key; its uuid is not read.
  */
  function ReadRigUsing(v: Value, decode: Text -> Result<seq<string>, Fault>): (r: Result<RigLayerData, Fault>)
    ensures v.Raw? ==> r == Err(ParseError)
    ensures r.Ok? ==> r.value.exportVersion.None? && r.value.uuid.None?
    ensures r.Ok? ==> forall m | m in r.value.models :: m.exportVersion.None?
  {
    match v
    case Raw(_) => Err(ParseError)
    case Doc(root) =>
      var rig :- FindChild(root, RigsStr);
      var name :- FindText(rig, "name");
      var modelName :- FindText(rig, "model_name");
      var rigRoot :- FindText(rig, "root");
      var rigPath :- FindText(rig, "rig_path");
      var animationPath :- FindText(rig, "animation_path");
      var itemsText :- FindText(rig, "export_items");
      var items :- decode(itemsText);
      var models :- ReadRigModels(FindAll(rig, ModelXmlPath.0, ModelXmlPath.1), decode);
      Ok(RigLayerData(name, modelName, rigRoot, animationPath, rigPath, None, models, items, None))
  }

  /** As the source decodes it: `text.split(', ')`, which raises AttributeError on None. */
  function SplitAsWritten(t: Text): (r: Result<seq<string>, Fault>)
    ensures r.Err? <==> t.None?
  {
    if t.None? then Err(AttributeError) else Ok(Split(t.value))
  }

  /** Guarded as the model-layer reader guards it. */
  function SplitGuarded(t: Text): (r: Result<seq<string>, Fault>)
    ensures r == Ok(SplitItems(t))
  {
    Ok(SplitItems(t))
  }

  /**
    Wherever the source's rig reader succeeds the corrected one does too, with
    the same fields and the same models apart from the export-item lists.
  */
  function ReadRigAsWritten(v: Value): (r: Result<RigLayerData, Fault>)
    ensures r.Ok? ==> (ReadRig(v).Ok? &&
      ReadRig(v).value.(models := r.value.models, exportItems := r.value.exportItems) == r.value)
    ensures r.Ok? ==> (|ReadRig(v).value.models| == |r.value.models| &&
      forall i | 0 <= i < |r.value.models| ::
        ReadRig(v).value.models[i].(exportItems := r.value.models[i].exportItems) == r.value.models[i])
  {
    if v.Doc? && ReadRigUsing(v, SplitAsWritten).Ok? then
      var rig := FindChild(v.root, RigsStr).value;
      RigModelReadersAgree(FindAll(rig, ModelXmlPath.0, ModelXmlPath.1));
      ReadRigUsing(v, SplitAsWritten)
    else ReadRigUsing(v, SplitAsWritten)
  }

  /** Where the source's decoding reads a list of rig models, the guarded one reads the same models. */
  lemma {:induction false} RigModelReadersAgree(es: seq<Element>)
    ensures ReadRigModels(es, SplitAsWritten).Ok? ==>
      var a := ReadRigModels(es, SplitAsWritten).value;
      ReadRigModels(es, SplitGuarded).Ok? &&
      forall i | 0 <= i < |a| :: ReadRigModels(es, SplitGuarded).value[i].(exportItems := a[i].exportItems) == a[i]
    decreases |es|
  {
    if es != [] && ReadRigModels(es, SplitAsWritten).Ok? {
      RigModelReadersAgree(es[1..]);
    }
  }

  /** The rig reader corrected, with the split guarded. */
  function ReadRig(v: Value): Result<RigLayerData, Fault> {
    ReadRigUsing(v, SplitGuarded)
  }

  /** `populate_rig_class(key)`: a fresh rig when the key is absent. */
  function ReadRigFromTable(t: Table, key: string): (r: Result<RigLayerData, Fault>)
    ensures key !in t.vals ==> r == Ok(NewRigLayerData())
    ensures key in t.vals ==> r == ReadRigAsWritten(t.vals[key])
  {
    if key in t.vals then ReadRigAsWritten(t.vals[key]) else Ok(NewRigLayerData())
  }

  /** The key `write_rig_data_to_fileinfo` files a rig under, and its document. */
  function RigEntry(r: RigLayerData): (e: Result<(string, Value), Fault>)
    ensures e.Ok? <==> r.name.Some?
    ensures e.Ok? ==> e.value == (RigLayerIdentifier + r.name.value, Doc(RigXml(r)))
  {
    var k :- Concat(RigLayerIdentifier, r.name);
    Ok((k, Doc(RigXml(r))))
  }

  function RigModelAsRead(m: RigModelData): RigModelData {
    RigModelData(Stored(m.name), Stored(m.path), None, ItemsAsRead(m.exportItems), Stored(m.uuid),
                 Stored(Some(Str(m.influences))))
  }

  /** A rig as the corrected reader gives it back. */
  function RigAsRead(r: RigLayerData): RigLayerData {
    RigLayerData(Stored(r.name), Stored(r.modelName), Stored(r.root), Stored(r.animationPath), Stored(r.rigPath),
                 None, RigModelsAsRead(r.models), ItemsAsRead(r.exportItems), None)
  }

  function RigModelsAsRead(ms: seq<RigModelData>): (r: seq<RigModelData>)
    ensures |r| == |ms| && forall i | 0 <= i < |ms| :: r[i] == RigModelAsRead(ms[i])
  {
    seq(|ms|, i requires 0 <= i < |ms| => RigModelAsRead(ms[i]))
  }

  /** The lookups the rig reader makes in a written rig `model` element. */
  lemma RigModelLookups(m: RigModelData)
    ensures FindText(RigModelXml(m), "name") == Ok(Stored(m.name))
    ensures FindText(RigModelXml(m), "uuid") == Ok(Stored(m.uuid))
    ensures FindText(RigModelXml(m), "path") == Ok(Stored(m.path))
  {
    var e := RigModelXml(m);
    LeafAt(e, 0, "name", m.name);
    LeafAt(e, 1, "uuid", m.uuid);
    LeafAt(e, 2, "path", m.path);
  }

  lemma RigModelItemLookups(m: RigModelData)
    ensures FindText(RigModelXml(m), "influences") == Ok(Stored(Some(Str(m.influences))))
    ensures FindText(RigModelXml(m), "export_items") == Ok(Stored(Some(Join(m.exportItems))))
  {
    var e := RigModelXml(m);
    LeafAt(e, 3, "influences", Some(Str(m.influences)));
    LeafAt(e, 4, "export_items", Some(Join(m.exportItems)));
  }

  lemma ReadRigModelBack(m: RigModelData, decode: Text -> Result<seq<string>, Fault>)
    ensures var d := decode(Stored(Some(Join(m.exportItems))));
      d.Err? ==> ReadRigModel(RigModelXml(m), decode) == Err(d.error)
    ensures var d := decode(Stored(Some(Join(m.exportItems))));
      d.Ok? ==> (ReadRigModel(RigModelXml(m), decode)
                 == Ok(RigModelData(Stored(m.name), Stored(m.path), None, d.value, Stored(m.uuid),
                                    Stored(Some(Str(m.influences))))))
  {
    RigModelLookups(m);
    RigModelItemLookups(m);
  }

  lemma {:induction false} ReadRigModelsOf(es: seq<Element>, xs: seq<RigModelData>, decode: Text -> Result<seq<string>, Fault>)
    requires |es| == |xs| && forall i | 0 <= i < |es| :: ReadRigModel(es[i], decode) == Ok(xs[i])
    ensures ReadRigModels(es, decode) == Ok(xs)
    decreases |es|
  {
    if es != [] {
      forall i | 0 <= i < |es| - 1 ensures ReadRigModel(es[1..][i], decode) == Ok(xs[1..][i]) {
        assert es[1..][i] == es[i + 1] && xs[1..][i] == xs[i + 1];
      }
      ReadRigModelsOf(es[1..], xs[1..], decode);
      assert ReadRigModel(es[0], decode) == Ok(xs[0]);
      assert ReadRigModels(es, decode) == Ok([xs[0]] + xs[1..]);
      assert xs == [xs[0]] + xs[1..];
    }
  }

  lemma ReadRigModelsBack(ms: seq<RigModelData>)
    ensures ReadRigModels(RigModelsXml(ms), SplitGuarded) == Ok(RigModelsAsRead(ms))
  {
    forall i | 0 <= i < |ms|
      ensures ReadRigModel(RigModelsXml(ms)[i], SplitGuarded) == Ok(RigModelsAsRead(ms)[i])
    {
      ReadRigModelBack(ms[i], SplitGuarded);
    }
    ReadRigModelsOf(RigModelsXml(ms), RigModelsAsRead(ms), SplitGuarded);
  }

  /** `ReadRigUsing` on a document from the results of its lookups. */
  lemma ReadRigOf(root: Element, rig: Element, name: Text, modelName: Text, rigRoot: Text, rigPath: Text,
                  animationPath: Text, itemsText: Text, decode: Text -> Result<seq<string>, Fault>)
    requires FindChild(root, RigsStr) == Ok(rig)
    requires FindText(rig, "name") == Ok(name) && FindText(rig, "model_name") == Ok(modelName)
    requires FindText(rig, "root") == Ok(rigRoot) && FindText(rig, "rig_path") == Ok(rigPath)
    requires FindText(rig, "animation_path") == Ok(animationPath) && FindText(rig, "export_items") == Ok(itemsText)
    ensures decode(itemsText).Err? ==> ReadRigUsing(Doc(root), decode) == Err(decode(itemsText).error)
    ensures decode(itemsText).Ok? ==>
      var models := ReadRigModels(FindAll(rig, ModelsStr, ModelStr), decode);
      ReadRigUsing(Doc(root), decode)
        == if models.Err? then Err(models.error)
           else Ok(RigLayerData(name, modelName, rigRoot, animationPath, rigPath, None, models.value,
                                decode(itemsText).value, None))
  {
  }

  /** The document's `rigs` element, and the lookups every rig reader makes in it. */
  lemma RigLookups(r: RigLayerData)
    ensures FindChild(RigXml(r), RigsStr) == Ok(RigXml(r).children[0])
    ensures var rig := RigXml(r).children[0];
      FindText(rig, "name") == Ok(Stored(r.name)) &&
      FindText(rig, "model_name") == Ok(Stored(r.modelName)) &&
      FindText(rig, "root") == Ok(Stored(r.root))
  {
    var root := RigXml(r);
    var rig := root.children[0];
    FindAt(root.children, 0, RigsStr);
    LeafAt(rig, 1, "name", r.name);
    LeafAt(rig, 2, "model_name", r.modelName);
    LeafAt(rig, 3, "root", r.root);
  }

  lemma RigPathLookups(r: RigLayerData)
    ensures var rig := RigXml(r).children[0];
      FindText(rig, "rig_path") == Ok(Stored(r.rigPath)) &&
      FindText(rig, "animation_path") == Ok(Stored(r.animationPath)) &&
      FindText(rig, "export_items") == Ok(Stored(Some(Join(r.exportItems))))
  {
    var rig := RigXml(r).children[0];
    LeafAt(rig, 4, "rig_path", r.rigPath);
    LeafAt(rig, 5, "animation_path", r.animationPath);
    LeafAt(rig, 7, "export_items", Some(Join(r.exportItems)));
  }

  lemma RigModels(r: RigLayerData)
    ensures FindAll(RigXml(r).children[0], ModelsStr, ModelStr) == RigModelsXml(r.models)
  {
    FindAllSingle(RigXml(r).children[0], 0, ModelsStr, ModelStr);
  }

  /** Every rig reader reads a written rig's document as far as its export items. */
  lemma RigFieldsBack(r: RigLayerData, decode: Text -> Result<seq<string>, Fault>)
    ensures var d := decode(Stored(Some(Join(r.exportItems))));
      d.Err? ==> ReadRigUsing(Doc(RigXml(r)), decode) == Err(d.error)
    ensures var d := decode(Stored(Some(Join(r.exportItems))));
      var models := ReadRigModels(RigModelsXml(r.models), decode);
      d.Ok? ==> (ReadRigUsing(Doc(RigXml(r)), decode)
                 == if models.Err? then Err(models.error)
                    else Ok(RigLayerData(Stored(r.name), Stored(r.modelName), Stored(r.root), Stored(r.animationPath),
                                         Stored(r.rigPath), None, models.value, d.value, None)))
  {
    RigLookups(r);
    RigPathLookups(r);
    RigModels(r);
    ReadRigOf(RigXml(r), RigXml(r).children[0], Stored(r.name), Stored(r.modelName), Stored(r.root),
              Stored(r.rigPath), Stored(r.animationPath), Stored(Some(Join(r.exportItems))), decode);
  }

  /**
    Rig round trip with the guarded split: every written rig reads back, with
    its export lists restored under the same conditions as a model layer's,
    the influences as the text `str()` gave them, and the uuid dropped.
  */
  lemma RigRoundTrip(r: RigLayerData)
    ensures ReadRig(Doc(RigXml(r))) == Ok(RigAsRead(r))
  {
    RigFieldsBack(r, SplitGuarded);
    ReadRigModelsBack(r.models);
  }

  lemma {:induction false} ReadRigModelsAsWrittenFail(ms: seq<RigModelData>, k: nat)
    requires k < |ms| && Join(ms[k].exportItems) == ""
    ensures ReadRigModels(RigModelsXml(ms), SplitAsWritten) == Err(AttributeError)
    decreases |ms|
  {
    ReadRigModelBack(ms[0], SplitAsWritten);
    if k > 0 && ReadRigModel(RigModelXml(ms[0]), SplitAsWritten).Ok? {
      assert RigModelsXml(ms)[1..] == RigModelsXml(ms[1..]);
      ReadRigModelsAsWrittenFail(ms[1..], k - 1);
    }
  }

  /**
    As the source reads rigs back, a rig that has no export items, or that has
    a model with none, is written but cannot be read again: the stored text is
    empty, reads back as None, and `None.split` raises AttributeError.
  */
  lemma RigEmptyItemsUnreadable(r: RigLayerData)
    requires r.exportItems == [] || exists k | 0 <= k < |r.models| :: r.models[k].exportItems == []
    ensures ReadRigAsWritten(Doc(RigXml(r))) == Err(AttributeError)
  {
    RigFieldsBack(r, SplitAsWritten);
    if r.exportItems != [] {
      var k :| 0 <= k < |r.models| && r.models[k].exportItems == [];
      ReadRigModelsAsWrittenFail(r.models, k);
    }
  }

  /**
    As the source reads rigs back, a written rig is readable exactly when
    neither its export list nor any of its models' joins to the empty text,
    and it then reads back as the guarded reader gives it.
  */
  lemma RigReadableAsWritten(r: RigLayerData)
    ensures ReadRigAsWritten(Doc(RigXml(r))).Ok? <==>
      Join(r.exportItems) != "" && forall k | 0 <= k < |r.models| :: Join(r.models[k].exportItems) != ""
    ensures ReadRigAsWritten(Doc(RigXml(r))).Ok? ==> ReadRigAsWritten(Doc(RigXml(r))) == Ok(RigAsRead(r))
  {
    RigFieldsBack(r, SplitAsWritten);
    if Join(r.exportItems) != "" {
      if k :| 0 <= k < |r.models| && Join(r.models[k].exportItems) == "" {
        ReadRigModelsAsWrittenFail(r.models, k);
      } else {
        forall i | 0 <= i < |r.models|
          ensures ReadRigModel(RigModelsXml(r.models)[i], SplitAsWritten) == Ok(RigModelsAsRead(r.models)[i])
        {
          ReadRigModelBack(r.models[i], SplitAsWritten);
        }
        ReadRigModelsOf(RigModelsXml(r.models), RigModelsAsRead(r.models), SplitAsWritten);
      }
    }
  }

  /** A fresh rig given a name is the simplest such record. */
  lemma FreshRigUnreadable(name: string)
    ensures ReadRigAsWritten(Doc(RigXml(NewRigLayerData().(name := Some(name))))) == Err(AttributeError)
    ensures ReadRig(Doc(RigXml(NewRigLayerData().(name := Some(name))))).Ok?
  {
    RigEmptyItemsUnreadable(NewRigLayerData().(name := Some(name)));
    RigRoundTrip(NewRigLayerData().(name := Some(name)));
  }
}
