/**
  `FBXExporterData` (`fbx_exporter_data.py`): finding, reading and writing the
  exporter's records in `fileInfo`, and the edits the tree view makes to them.
  Every edit reads all records of one kind, changes them in memory and
  writes all of them back.
*/
module ExporterData {
  import opened Wrappers
  import opened PyCore
  import opened Xml
  import opened Store
  import opened Records
  import opened Codec
  import opened Edits

  /**
    A row of the exporter's tree view as the edits see it: `item.text(0)`,
    `item.whatsThis(0)` and `item.parent().text(0)`, the last None for a
    top-level row (whose `parent()` is None).
  */
  datatype TreeItem = TreeItem(text: string, kind: string, parent: Option<string>)

  /** The table after an operation, and how the operation ended. */
  type Outcome = (Table, Result<(), Fault>)

  // ---------------------------------------------------------------------
  // Keys

  /** `get_valid_keys_from_fileInfo(p)`: the stored keys containing `p`, in key order. */
  method GetValidKeysFromFileInfo(fi: FileInfo, p: string) returns (keys: seq<string>)
    ensures keys == KeysWith(fi.keys, p)
    ensures forall k :: k in keys <==> k in fi.keys && Contains(k, p)
  {
    keys := [];
    var i := 0;
    while i < |fi.keys|
      invariant 0 <= i <= |fi.keys|
      invariant keys == KeysWith(fi.keys[..i], p)
    {
      KeysWithAppend(fi.keys[..i], fi.keys[i], p);
      assert fi.keys[..i + 1] == fi.keys[..i] + [fi.keys[i]];
      if Contains(fi.keys[i], p) {
        keys := keys + [fi.keys[i]];
      }
      i := i + 1;
    }
    assert fi.keys[..|fi.keys|] == fi.keys;
  }

  /** `check_exists_layer(name)`: some stored key contains `name`. */
  method CheckExistsLayer(fi: FileInfo, name: string) returns (found: bool)
    ensures found <==> exists k | k in fi.keys :: Contains(k, name)
  {
    var keys := GetValidKeysFromFileInfo(fi, name);
    found := |keys| > 0;
    if found {
      assert keys[0] in keys;
    }
  }

  /** `object_in_data(name, attr)`: the key `attr + name` is stored. */
  method ObjectInData(fi: FileInfo, name: string, findAttrName: string) returns (out: bool)
    ensures out <==> findAttrName + name in fi.keys
  {
    out := findAttrName + name in fi.keys;
  }

  /** `remove_key(k)`: deletes `k` if it is stored. */
  method RemoveKey(fi: FileInfo, k: string)
    requires fi.Valid()
    modifies fi
    ensures fi.Valid()
    ensures fi.State() == Delete(old(fi.State()), k)
  {
    fi.Remove(k);
  }

  // ---------------------------------------------------------------------
  // Writing and reading every record of a kind

  /**
    `write_*_to_fileinfo(rs)`: `fileInfo[prefix + r.name] = create_*_xml(r)`
    for each record in turn, stopping at the first that raises.
  */
  method WriteRecords<R>(fi: FileInfo, rs: seq<R>, entry: R -> Result<(string, Value), Fault>) returns (r: Result<(), Fault>)
    requires fi.Valid()
    modifies fi
    ensures fi.Valid()
    ensures (fi.State(), r) == WriteAll(old(fi.State()), rs, entry)
  {
    var i := 0;
    while i < |rs|
      invariant 0 <= i <= |rs| && fi.Valid()
      invariant WriteAll(old(fi.State()), rs, entry) == WriteAll(fi.State(), rs[i..], entry)
    {
      assert rs[i..][0] == rs[i] && rs[i..][1..] == rs[i + 1..];
      var e := entry(rs[i]);
      if e.Err? {
        return Err(e.error);
      }
      fi.SetItem(e.value.0, e.value.1);
      i := i + 1;
    }
    return Ok(());
  }

  /**
    `build_*_class_from_data()`: reads the record stored under every key that
    contains the prefix, in key order.
  */
  method BuildRecords<R>(fi: FileInfo, p: string, read: (string, Value) -> Result<R, Fault>) returns (r: Result<seq<R>, Fault>)
    requires fi.Valid()
    ensures r == Build(fi.State(), p, read)
  {
    var keys := GetValidKeysFromFileInfo(fi, p);
    var t := fi.State();
    var out: seq<R> := [];
    var i := 0;
    while i < |keys|
      invariant 0 <= i <= |keys| && |out| == i
      invariant forall j | 0 <= j < i :: read(keys[j], t.vals[keys[j]]) == Ok(out[j])
    {
      var x := read(keys[i], fi.vals[keys[i]]);
      if x.Err? {
        ReadAllFirstErr(t, keys, read, i);
        return Err(x.error);
      }
      out := out + [x.value];
      i := i + 1;
    }
    var whole := ReadAll(t, keys, read);
    assert whole.Ok?;
    assert whole.value == out;
    r := whole;
  }

  function ReadRigAt(key: string, v: Value): Result<RigLayerData, Fault> {
    ReadRigAsWritten(v)
  }

  /** `build_actor_class_from_data()`. */
  function BuildActors(t: Table): Result<seq<ActorLayerData>, Fault>
    requires WellFormed(t)
  {
    Build(t, ActorIdentifier, ReadActorAsWritten)
  }

  /** `build_rig_class_from_data()`: every key under the rig prefix is present, so `populate_rig_class` reads it. */
  function BuildRigs(t: Table): Result<seq<RigLayerData>, Fault>
    requires WellFormed(t)
  {
    Build(t, RigLayerIdentifier, ReadRigAt)
  }

  /** `build_model_class_from_data()`. */
  function BuildLayers(t: Table): Result<seq<LayerData>, Fault>
    requires WellFormed(t)
  {
    Build(t, ModelLayerIdentifier, ReadLayer)
  }

  /** What `build_class_from_data(identifier)` hands back: the records of one kind, or `[]`. */
  datatype Built =
    | Actors(actors: seq<ActorLayerData>)
    | Rigs(rigs: seq<RigLayerData>)
    | Layers(layers: seq<LayerData>)
    | Nothing

  /**
    `build_class_from_data(identifier)` as written. Its last test is
    `identifier == (model_layer_identifier or scene_layer_identifier)`, and the
    `or` of two non-empty strings is the first, so only the model-layer prefix
    selects model layers.
  */
  function BuildClassFromDataAsWritten(t: Table, identifier: string): (r: Result<Built, Fault>)
    requires WellFormed(t)
    ensures identifier == ModelLayerIdentifier ==>
      r == (match BuildLayers(t) case Ok(ls) => Ok(Layers(ls)) case Err(f) => Err(f))
    ensures identifier == SceneLayerIdentifier ==> r == Ok(Nothing)
    ensures identifier !in {ActorIdentifier, RigLayerIdentifier, ModelLayerIdentifier} ==> r == Ok(Nothing)
  {
    assert SceneLayerIdentifier[5] != ActorIdentifier[5];
    assert SceneLayerIdentifier[5] != RigLayerIdentifier[5];
    assert SceneLayerIdentifier[5] != ModelLayerIdentifier[5];
    if identifier == ActorIdentifier then
      var cs :- BuildActors(t); Ok(Actors(cs))
    else if identifier == RigLayerIdentifier then
      var rs :- BuildRigs(t); Ok(Rigs(rs))
    else if identifier == ModelLayerIdentifier then
      var ls :- BuildLayers(t); Ok(Layers(ls))
    else Ok(Nothing)
  }

  /** With the membership test the comparison evidently means: either prefix selects model layers. */
  function BuildClassFromData(t: Table, identifier: string): (r: Result<Built, Fault>)
    requires WellFormed(t)
    ensures identifier == ModelLayerIdentifier || identifier == SceneLayerIdentifier ==>
      r == (match BuildLayers(t) case Ok(ls) => Ok(Layers(ls)) case Err(f) => Err(f))
  {
    if identifier == ActorIdentifier then
      var cs :- BuildActors(t); Ok(Actors(cs))
    else if identifier == RigLayerIdentifier then
      var rs :- BuildRigs(t); Ok(Rigs(rs))
    else if identifier == ModelLayerIdentifier || identifier == SceneLayerIdentifier then
      var ls :- BuildLayers(t); Ok(Layers(ls))
    else Ok(Nothing)
  }

  /** Asked for scene layers, the function as written builds nothing, whatever the table holds. */
  lemma SceneLayersNeverBuilt(t: Table)
    requires WellFormed(t)
    ensures BuildClassFromDataAsWritten(t, SceneLayerIdentifier) == Ok(Nothing)
    ensures BuildLayers(t).Ok? ==> BuildClassFromData(t, SceneLayerIdentifier) == Ok(Layers(BuildLayers(t).value))
  {
    assert SceneLayerIdentifier[5] != ActorIdentifier[5];
    assert SceneLayerIdentifier[5] != RigLayerIdentifier[5];
    assert SceneLayerIdentifier[5] != ModelLayerIdentifier[5];
  }

  /** The two agree on every other identifier. */
  lemma BuildClassFromDataAgrees(t: Table, identifier: string)
    requires WellFormed(t) && identifier != SceneLayerIdentifier
    ensures BuildClassFromData(t, identifier) == BuildClassFromDataAsWritten(t, identifier)
  {
  }

  /** `build_class_from_data(identifier)`, with the comparison as written. */
  method BuildClass(fi: FileInfo, identifier: string) returns (r: Result<Built, Fault>)
    requires fi.Valid()
    ensures r == BuildClassFromDataAsWritten(fi.State(), identifier)
  {
    if identifier == ActorIdentifier {
      var cs := BuildRecords(fi, ActorIdentifier, ReadActorAsWritten);
      r := if cs.Ok? then Ok(Actors(cs.value)) else Err(cs.error);
    } else if identifier == RigLayerIdentifier {
      var rs := BuildRecords(fi, RigLayerIdentifier, ReadRigAt);
      r := if rs.Ok? then Ok(Rigs(rs.value)) else Err(rs.error);
    } else if identifier == ModelLayerIdentifier {
      var ls := BuildRecords(fi, ModelLayerIdentifier, ReadLayer);
      r := if ls.Ok? then Ok(Layers(ls.value)) else Err(ls.error);
    } else {
      r := Ok(Nothing);
    }
  }

  // ---------------------------------------------------------------------
  // Build, edit in memory, write back

  function DropKey(t: Table, drop: Option<string>): Table {
    if drop.Some? then Delete(t, drop.value) else t
  }

  /**
    The shape of every edit: build the records of one kind, update the ones
    `sel` picks with `f`, remove `drop` from the table, and write every record
    back. `parentMissing` says that the loop compares each record with
    `item.parent().text(0)` of a top-level row, which raises AttributeError as
    soon as there is a record to compare; nothing is then written.
  */
  function EditEffect<R>(t: Table, built: Result<seq<R>, Fault>, parentMissing: bool, sel: R -> bool, f: R -> R,
                         drop: Option<string>, entry: R -> Result<(string, Value), Fault>): (o: Outcome)
    ensures built.Err? ==> o == (t, Err(built.error))
    ensures built.Ok? && |built.value| > 0 && parentMissing ==> o == (t, Err(AttributeError))
    ensures o.1.Ok? ==> (built.Ok? && o == WriteAll(DropKey(t, drop), MapWhere(built.value, sel, f), entry))
  {
    match built
    case Err(e) => (t, Err(e))
    case Ok(rs) =>
      if |rs| > 0 && parentMissing then (t, Err(AttributeError))
      else WriteAll(DropKey(t, drop), MapWhere(rs, sel, f), entry)
  }

  method EditRecords<R>(fi: FileInfo, p: string, read: (string, Value) -> Result<R, Fault>, parentMissing: bool,
                        sel: R -> bool, f: R -> R, drop: Option<string>, entry: R -> Result<(string, Value), Fault>)
      returns (r: Result<(), Fault>)
    requires fi.Valid()
    modifies fi
    ensures fi.Valid()
    ensures (fi.State(), r) == EditEffect(old(fi.State()), Build(old(fi.State()), p, read), parentMissing, sel, f, drop, entry)
  {
    var built := BuildRecords(fi, p, read);
    if built.Err? {
      return Err(built.error);
    }
    if |built.value| > 0 && parentMissing {
      return Err(AttributeError);
    }
    var rs := UpdateWhere(built.value, sel, f);
    if drop.Some? {
      RemoveKey(fi, drop.value);
    }
    r := WriteRecords(fi, rs, entry);
  }

  /** The same shape where updating a record can raise: the first error ends the edit before anything is written. */
  function TryEditEffect<R>(t: Table, built: Result<seq<R>, Fault>, parentMissing: bool, sel: R -> bool,
                            f: R -> Result<R, Fault>, entry: R -> Result<(string, Value), Fault>): (o: Outcome)
    ensures built.Err? ==> o == (t, Err(built.error))
    ensures built.Ok? && |built.value| > 0 && parentMissing ==> o == (t, Err(AttributeError))
    ensures o.1.Ok? ==> (built.Ok? && TryMapWhere(built.value, sel, f).Ok? &&
      o == WriteAll(t, TryMapWhere(built.value, sel, f).value, entry))
  {
    match built
    case Err(e) => (t, Err(e))
    case Ok(rs) =>
      if |rs| > 0 && parentMissing then (t, Err(AttributeError))
      else
        match TryMapWhere(rs, sel, f)
        case Err(e) => (t, Err(e))
        case Ok(rs') => WriteAll(t, rs', entry)
  }

  method TryEditRecords<R>(fi: FileInfo, p: string, read: (string, Value) -> Result<R, Fault>, parentMissing: bool,
                           sel: R -> bool, f: R -> Result<R, Fault>, entry: R -> Result<(string, Value), Fault>)
      returns (r: Result<(), Fault>)
    requires fi.Valid()
    modifies fi
    ensures fi.Valid()
    ensures (fi.State(), r) == TryEditEffect(old(fi.State()), Build(old(fi.State()), p, read), parentMissing, sel, f, entry)
  {
    var built := BuildRecords(fi, p, read);
    if built.Err? {
      return Err(built.error);
    }
    if |built.value| > 0 && parentMissing {
      return Err(AttributeError);
    }
    var rs := TryUpdateWhere(built.value, sel, f);
    if rs.Err? {
      return Err(rs.error);
    }
    r := WriteRecords(fi, rs.value, entry);
  }

  /** After a write in which every entry succeeds, every record's key is in the table. */
  lemma WrittenKeyPresent<R>(t: Table, rs: seq<R>, entry: R -> Result<(string, Value), Fault>, i: nat)
    requires WellFormed(t)
    requires forall j | 0 <= j < |rs| :: entry(rs[j]).Ok?
    requires i < |rs|
    ensures entry(rs[i]).value.0 in WriteAll(t, rs, entry).0.vals
  {
    var k := entry(rs[i]).value.0;
    var last := LastIndex(rs, SameKey(entry, k));
    assert SameKey(entry, k)(rs[i]);
    WriteAllWritten(t, rs, entry, last.value);
  }

  function SameKey<R>(entry: R -> Result<(string, Value), Fault>, k: string): R -> bool {
    r => entry(r).Ok? && entry(r).value.0 == k
  }

  // ---------------------------------------------------------------------
  // What the edits select and update

  function ActorNamed(n: Text): ActorLayerData -> bool { (c: ActorLayerData) => c.name == n }
  function AnimNamed(n: Text): AnimationData -> bool { (a: AnimationData) => a.animName == n }
  function RigNamed(n: Text): RigLayerData -> bool { (r: RigLayerData) => r.name == n }
  function AnyRig(): RigLayerData -> bool { (r: RigLayerData) => true }
  function RigModelNamed(n: Text): RigModelData -> bool { (m: RigModelData) => m.name == n }
  function LayerNamed(n: Text): LayerData -> bool { (l: LayerData) => l.name == n }
  function ModelNamed(n: Text): ModelData -> bool { (m: ModelData) => m.name == n }

  function Animations(c: ActorLayerData): seq<AnimationData> { c.animations }
  function RigModels(r: RigLayerData): seq<RigModelData> { r.models }
  function LayerModels(l: LayerData): seq<ModelData> { l.models }
  function WithAnimations(c: ActorLayerData, as_: seq<AnimationData>): ActorLayerData { c.(animations := as_) }
  function WithRigModels(r: RigLayerData, ms: seq<RigModelData>): RigLayerData { r.(models := ms) }
  function WithLayerModels(l: LayerData, ms: seq<ModelData>): LayerData { l.(models := ms) }

  /** The inner loop over an actor's animations. */
  function InAnimations(anim: Text, f: AnimationData -> AnimationData): ActorLayerData -> ActorLayerData {
    (c: ActorLayerData) => c.(animations := MapWhere(c.animations, AnimNamed(anim), f))
  }

  /** The inner loop over a rig's models. */
  function InRigModels(name: Text, f: RigModelData -> RigModelData): RigLayerData -> RigLayerData {
    (r: RigLayerData) => r.(models := MapWhere(r.models, RigModelNamed(name), f))
  }

  /** The inner loop over a layer's models. */
  function InLayerModels(name: Text, f: ModelData -> ModelData): LayerData -> LayerData {
    (l: LayerData) => l.(models := MapWhere(l.models, ModelNamed(name), f))
  }

  // ---------------------------------------------------------------------
  // Actor edits

  /** Frame type 1 sets the start frame, 2 the end frame; any other leaves the animation alone. */
  function Retimed(newFrame: string, which: int): AnimationData -> AnimationData {
    (a: AnimationData) => if which == 1 then a.(startFrame := Some(newFrame))
                           else if which == 2 then a.(endFrame := Some(newFrame))
                           else a
  }

  function ChangeStartEndFrameEffect(t: Table, item: TreeItem, newFrame: string, which: int): Outcome
    requires WellFormed(t)
  {
    EditEffect(t, BuildActors(t), item.parent.None?, ActorNamed(item.parent),
               InAnimations(Some(item.text), Retimed(newFrame, which)), None, ActorEntry)
  }

  /** `change_start_end_frame(item, new_frame, type)`. */
  method ChangeStartEndFrame(fi: FileInfo, item: TreeItem, newFrame: string, which: int) returns (r: Result<(), Fault>)
    requires fi.Valid()
    modifies fi
    ensures fi.Valid()
    ensures (fi.State(), r) == ChangeStartEndFrameEffect(old(fi.State()), item, newFrame, which)
  {
    r := EditRecords(fi, ActorIdentifier, ReadActorAsWritten, item.parent.None?, ActorNamed(item.parent),
                     InAnimations(Some(item.text), Retimed(newFrame, which)), None, ActorEntry);
  }

  /** Different names under one prefix make different keys. */
  lemma KeysDiffer(p: string, a: string, b: string)
    requires a != b
    ensures p + a != p + b
  {
    assert (p + a)[|p|..] == a;
    assert (p + b)[|p|..] == b;
  }

  /**
    Writing actors in which every entry succeeds stores actor `i` under its
    key when no later actor shares its name, and that key reads back as the
    actor's written form.
  */
  lemma ActorWrittenBack(t: Table, cs: seq<ActorLayerData>, i: nat)
    requires WellFormed(t)
    requires WriteAll(t, cs, ActorEntry).1.Ok?
    requires i < |cs| && forall k | i < k < |cs| :: cs[k].name != cs[i].name
    ensures cs[i].name.Some? && ActorXml(cs[i]).Ok?
    ensures var key := ActorIdentifier + cs[i].name.value;
      key in WriteAll(t, cs, ActorEntry).0.vals &&
      ReadActorAsWritten(key, WriteAll(t, cs, ActorEntry).0.vals[key]) == Ok(ActorAsReadUsing(cs[i], key, AppendRaw))
  {
    WriteAllOk(t, cs, ActorEntry);
    assert ActorEntry(cs[i]).Ok?;
    forall k | i < k < |cs|
      ensures ActorEntry(cs[k]).value.0 != ActorEntry(cs[i]).value.0
    {
      assert ActorEntry(cs[k]).Ok?;
      KeysDiffer(ActorIdentifier, cs[k].name.value, cs[i].name.value);
    }
    WriteAllWritten(t, cs, ActorEntry, i);
    ActorRoundTripUsing(cs[i], ActorIdentifier + cs[i].name.value, AppendRaw);
  }

  /**
    After a frame change that goes through, the actor stored under the parent
    row's name reads back with the new frame on the edited animation and every
    other frame as it was; the later actors must not share that name.
  */
  lemma ChangeStartEndFrameStored(t: Table, item: TreeItem, newFrame: string, which: int,
                                   cs: seq<ActorLayerData>, i: nat, j: nat)
    requires WellFormed(t) && BuildActors(t) == Ok(cs)
    requires ChangeStartEndFrameEffect(t, item, newFrame, which).1.Ok?
    requires i < |cs| && cs[i].name == item.parent && forall k | i < k < |cs| :: cs[k].name != item.parent
    requires j < |cs[i].animations| && cs[i].animations[j].animName == Some(item.text)
    ensures item.parent.Some?
    ensures var o := ChangeStartEndFrameEffect(t, item, newFrame, which);
      var key := ActorIdentifier + item.parent.value;
      var a := cs[i].animations[j];
      key in o.0.vals && ReadActorAsWritten(key, o.0.vals[key]).Ok? &&
      j < |ReadActorAsWritten(key, o.0.vals[key]).value.animations| &&
      ReadActorAsWritten(key, o.0.vals[key]).value.animations[j].startFrame ==
        (if which == 1 then Stored(Some(newFrame)) else Stored(a.startFrame)) &&
      ReadActorAsWritten(key, o.0.vals[key]).value.animations[j].endFrame ==
        (if which == 2 then Stored(Some(newFrame)) else Stored(a.endFrame))
  {
    var sel, f := ActorNamed(item.parent), InAnimations(Some(item.text), Retimed(newFrame, which));
    var cs' := MapWhere(cs, sel, f);
    assert ChangeStartEndFrameEffect(t, item, newFrame, which) == WriteAll(t, cs', ActorEntry);
    assert sel(cs[i]) && cs'[i] == f(cs[i]) && cs'[i].name == item.parent;
    forall k | i < k < |cs| ensures cs'[k].name != cs'[i].name {
      assert !sel(cs[k]) && cs'[k] == cs[k];
    }
    ActorWrittenBack(t, cs', i);
    var a := cs[i].animations[j];
    var a' := Retimed(newFrame, which)(a);
    assert AnimNamed(Some(item.text))(a);
    assert cs'[i].animations[j] == a';
    var key := ActorIdentifier + item.parent.value;
    assert ActorAsReadUsing(cs'[i], key, AppendRaw).animations[j] == AnimationAsRead(a', cs'[i].name);
  }

  function AnimRenamed(newName: string): AnimationData -> AnimationData {
    (a: AnimationData) => a.(animName := Some(newName))
  }

  function ChangeAnimationNameEffect(t: Table, item: TreeItem, newName: string, oldAnimName: string): Outcome
    requires WellFormed(t)
  {
    EditEffect(t, BuildActors(t), item.parent.None?, ActorNamed(item.parent),
               InAnimations(Some(oldAnimName), AnimRenamed(newName)), None, ActorEntry)
  }

  /** `change_animation_name(item, new_name, old_anim_name)`. */
  method ChangeAnimationName(fi: FileInfo, item: TreeItem, newName: string, oldAnimName: string) returns (r: Result<(), Fault>)
    requires fi.Valid()
    modifies fi
    ensures fi.Valid()
    ensures (fi.State(), r) == ChangeAnimationNameEffect(old(fi.State()), item, newName, oldAnimName)
  {
    r := EditRecords(fi, ActorIdentifier, ReadActorAsWritten, item.parent.None?, ActorNamed(item.parent),
                     InAnimations(Some(oldAnimName), AnimRenamed(newName)), None, ActorEntry);
  }

  /** Renaming gives every animation of that name under the parent the new name and changes nothing else. */
  lemma ChangeAnimationNameEdits(item: TreeItem, newName: string, oldAnimName: string, cs: seq<ActorLayerData>)
    ensures var cs' := MapWhere(cs, ActorNamed(item.parent), InAnimations(Some(oldAnimName), AnimRenamed(newName)));
      |cs'| == |cs| &&
      forall i | 0 <= i < |cs| ::
        cs'[i].(animations := cs[i].animations) == cs[i] && |cs'[i].animations| == |cs[i].animations| &&
        forall j | 0 <= j < |cs[i].animations| ::
          cs'[i].animations[j].(animName := cs[i].animations[j].animName) == cs[i].animations[j] &&
          cs'[i].animations[j].animName ==
            (if cs[i].name == item.parent && cs[i].animations[j].animName == Some(oldAnimName) then Some(newName)
             else cs[i].animations[j].animName)
  {
  }

  /** Only the override-path column sets the override path. */
  function Overridden(path: string, column: int): AnimationData -> AnimationData {
    (a: AnimationData) => if column == 4 then a.(overridePath := Some(path)) else a
  }

  function ChangeOverridePathEffect(t: Table, item: TreeItem, path: string, column: int): Outcome
    requires WellFormed(t)
  {
    EditEffect(t, BuildActors(t), item.parent.None?, ActorNamed(item.parent),
               InAnimations(Some(item.text), Overridden(path, column)), Some(ActorIdentifier + item.text), ActorEntry)
  }

  /**
    `change_override_path(item, path, column)`. Between the edit and the write
    it removes the key made of the actor prefix and the animation row's text.
  */
  method ChangeOverridePath(fi: FileInfo, item: TreeItem, path: string, column: int) returns (r: Result<(), Fault>)
    requires fi.Valid()
    modifies fi
    ensures fi.Valid()
    ensures (fi.State(), r) == ChangeOverridePathEffect(old(fi.State()), item, path, column)
  {
    r := EditRecords(fi, ActorIdentifier, ReadActorAsWritten, item.parent.None?, ActorNamed(item.parent),
                     InAnimations(Some(item.text), Overridden(path, column)), Some(ActorIdentifier + item.text), ActorEntry);
  }

  /**
    The removed key loses nothing that had a record: when an actor is named
    like the animation row, the write that follows stores it again.
  */
  lemma ChangeOverridePathKeepsActors(t: Table, item: TreeItem, path: string, column: int, i: nat)
    requires WellFormed(t)
    requires ChangeOverridePathEffect(t, item, path, column).1.Ok?
    requires BuildActors(t).Ok? && i < |BuildActors(t).value| && BuildActors(t).value[i].name == Some(item.text)
    ensures ActorIdentifier + item.text in ChangeOverridePathEffect(t, item, path, column).0.vals
  {
    var cs := BuildActors(t).value;
    var cs' := MapWhere(cs, ActorNamed(item.parent), InAnimations(Some(item.text), Overridden(path, column)));
    var d := Delete(t, ActorIdentifier + item.text);
    DeleteWellFormed(t, ActorIdentifier + item.text);
    WriteAllOk(d, cs', ActorEntry);
    WrittenKeyPresent(d, cs', ActorEntry, i);
  }

  /** `set_maya_to_data_range(item)`: the playback range set last, the one of the last matching animation; None when nothing matches. */
  function PlaybackRange(t: Table, item: TreeItem): (r: Result<Option<(Text, Text)>, Fault>)
    requires WellFormed(t)
  {
    match BuildActors(t)
    case Err(e) => Err(e)
    case Ok(cs) =>
      if |cs| > 0 && item.parent.None? then Err(AttributeError)
      else
        match LastPair(cs, ActorNamed(item.parent), Animations, AnimNamed(Some(item.text)))
        case None => Ok(None)
        case Some((i, j)) => Ok(Some((cs[i].animations[j].startFrame, cs[i].animations[j].endFrame)))
  }

  /** `set_maya_to_data_range(item)`: the range handed to Maya's playback options, which are not modelled. */
  method SetMayaToDataRange(fi: FileInfo, item: TreeItem) returns (r: Result<Option<(Text, Text)>, Fault>)
    requires fi.Valid()
    ensures r == PlaybackRange(fi.State(), item)
  {
    var built := BuildRecords(fi, ActorIdentifier, ReadActorAsWritten);
    if built.Err? {
      return Err(built.error);
    }
    var cs := built.value;
    if |cs| > 0 && item.parent.None? {
      return Err(AttributeError);
    }
    var _, pair := FindLast(cs, ActorNamed(item.parent), Animations, AnimNamed(Some(item.text)));
    if pair.None? {
      return Ok(None);
    }
    var a := cs[pair.value.0].animations[pair.value.1];
    return Ok(Some((a.startFrame, a.endFrame)));
  }

  /** Under unique actor and animation names the range is the one of the animation the row shows. */
  lemma PlaybackRangeUnique(t: Table, item: TreeItem, cs: seq<ActorLayerData>, i: nat, j: nat)
    requires WellFormed(t) && BuildActors(t) == Ok(cs) && item.parent.Some?
    requires i < |cs| && cs[i].name == item.parent && (forall k | 0 <= k < |cs| && k != i :: cs[k].name != item.parent)
    requires j < |cs[i].animations| && cs[i].animations[j].animName == Some(item.text)
    requires forall k | 0 <= k < |cs[i].animations| && k != j :: cs[i].animations[k].animName != Some(item.text)
    ensures PlaybackRange(t, item) == Ok(Some((cs[i].animations[j].startFrame, cs[i].animations[j].endFrame)))
  {
    LastPairUnique(cs, ActorNamed(item.parent), Animations, AnimNamed(Some(item.text)), i, j);
  }

  // ---------------------------------------------------------------------
  // Muted animation layers

  /**
    `list(set(xs) - set(ys))`: the items of `xs` that are not in `ys`, each
    once. The order of a Python set is not modelled: items keep the order of
    their first occurrence.
  */
  function Difference(xs: seq<string>, ys: seq<string>): (r: seq<string>)
    ensures forall x :: x in r <==> x in xs && x !in ys
    ensures Distinct(r)
    decreases |xs|
  {
    if xs == [] then []
    else
      var r := Difference(xs[..|xs| - 1], ys);
      var x := xs[|xs| - 1];
      assert xs == xs[..|xs| - 1] + [x];
      if x in ys || x in r then r else r + [x]
  }

  /** Appending items that are all excluded changes no difference. */
  lemma {:induction false} DifferenceIgnoresExcluded(xs: seq<string>, zs: seq<string>, ys: seq<string>)
    requires forall z | z in zs :: z in ys
    ensures Difference(xs + zs, ys) == Difference(xs, ys)
    decreases |zs|
  {
    if zs != [] {
      var zs' := zs[..|zs| - 1];
      assert (xs + zs)[..|xs + zs| - 1] == xs + zs';
      assert (xs + zs)[|xs + zs| - 1] == zs[|zs| - 1];
      DifferenceIgnoresExcluded(xs, zs', ys);
    } else {
      assert xs + zs == xs;
    }
  }

  /** The muted-layers text without the selected layers; a None text raises AttributeError on `split`. */
  function Unmute(muted: Text, selected: seq<string>): (r: Result<Text, Fault>)
    ensures r.Err? <==> muted.None?
  {
    if muted.None? then Err(AttributeError)
    else Ok(Some(Join(Difference(Split(muted.value), selected))))
  }

  /** The selected layers added after those already muted. */
  function Mute(muted: Text, selected: seq<string>): Text {
    if Truthy(muted) then Some(Join(Split(muted.value) + selected)) else Some(Join(selected))
  }

  /** Muting appends the selection to the text, one separator between. */
  lemma MuteAppends(muted: Text, selected: seq<string>)
    requires selected != []
    ensures Truthy(muted) ==> Mute(muted, selected) == Some(muted.value + Sep + Join(selected))
    ensures !Truthy(muted) ==> Mute(muted, selected) == Some(Join(selected))
  {
    if Truthy(muted) {
      JoinConcat(Split(muted.value), selected);
      JoinSplit(muted.value);
    }
  }

  /** Unmuting the layers just muted gives what unmuting them before would have, for separator-free layer names. */
  lemma UnmuteUndoesMute(m: string, selected: seq<string>)
    requires m != "" && selected != []
    requires forall x | x in selected :: SafeItem(x)
    ensures Unmute(Mute(Some(m), selected), selected) == Unmute(Some(m), selected)
  {
    var xs := Split(m) + selected;
    assert forall x | x in xs :: SafeItem(x);
    SplitJoin(xs);
    DifferenceIgnoresExcluded(Split(m), selected, selected);
  }

  function UnmuteAnim(selected: seq<string>, a: AnimationData): Result<AnimationData, Fault> {
    var m :- Unmute(a.mutedLayers, selected);
    Ok(a.(mutedLayers := m))
  }

  function UnmuteActor(anim: Text, selected: seq<string>, c: ActorLayerData): Result<ActorLayerData, Fault> {
    var as_ :- TryMapWhere(c.animations, AnimNamed(anim), a => UnmuteAnim(selected, a));
    Ok(c.(animations := as_))
  }

  function Unmuted(anim: Text, selected: seq<string>): ActorLayerData -> Result<ActorLayerData, Fault> {
    (c: ActorLayerData) => UnmuteActor(anim, selected, c)
  }

  function Muted(selected: seq<string>): AnimationData -> AnimationData {
    (a: AnimationData) => a.(mutedLayers := Mute(a.mutedLayers, selected))
  }

  function RemoveSelectedAnimlayersEffect(t: Table, item: TreeItem, selected: seq<string>): Outcome
    requires WellFormed(t)
  {
    if selected == [] then (t, Ok(()))
    else TryEditEffect(t, BuildActors(t), item.parent.None?, ActorNamed(item.parent),
                       Unmuted(Some(item.text), selected), ActorEntry)
  }

  /** `remove_selected_animlayers(item)`, with the layers selected in Maya as `selected`. */
  method RemoveSelectedAnimlayers(fi: FileInfo, item: TreeItem, selected: seq<string>) returns (r: Result<(), Fault>)
    requires fi.Valid()
    modifies fi
    ensures fi.Valid()
    ensures (fi.State(), r) == RemoveSelectedAnimlayersEffect(old(fi.State()), item, selected)
  {
    if selected == [] {
      return Ok(());
    }
    r := TryEditRecords(fi, ActorIdentifier, ReadActorAsWritten, item.parent.None?, ActorNamed(item.parent),
                        Unmuted(Some(item.text), selected), ActorEntry);
  }

  function SetSelectedAnimlayersEffect(t: Table, item: TreeItem, selected: seq<string>): Outcome
    requires WellFormed(t)
  {
    if selected == [] then (t, Ok(()))
    else EditEffect(t, BuildActors(t), item.parent.None?, ActorNamed(item.parent),
                    InAnimations(Some(item.text), Muted(selected)), None, ActorEntry)
  }

  /** `set_selected_animlayers(item)`, with the layers selected in Maya as `selected`. */
  method SetSelectedAnimlayers(fi: FileInfo, item: TreeItem, selected: seq<string>) returns (r: Result<(), Fault>)
    requires fi.Valid()
    modifies fi
    ensures fi.Valid()
    ensures (fi.State(), r) == SetSelectedAnimlayersEffect(old(fi.State()), item, selected)
  {
    if selected == [] {
      return Ok(());
    }
    r := EditRecords(fi, ActorIdentifier, ReadActorAsWritten, item.parent.None?, ActorNamed(item.parent),
                     InAnimations(Some(item.text), Muted(selected)), None, ActorEntry);
  }

  /** With nothing selected in Maya neither edit reads or writes the table. */
  lemma AnimlayersNeedASelection(t: Table, item: TreeItem)
    requires WellFormed(t)
    ensures SetSelectedAnimlayersEffect(t, item, []) == (t, Ok(()))
    ensures RemoveSelectedAnimlayersEffect(t, item, []) == (t, Ok(()))
  {
  }

  // ---------------------------------------------------------------------
  // Removing a child record

  /**
    The shape of the removals: build, look up the parent and child indices,
    pop the child and write every parent back.
  */
  function RemoveEffect<P, C>(t: Table, built: Result<seq<P>, Fault>, parentMissing: bool, pm: P -> bool,
                              kids: P -> seq<C>, cm: C -> bool, withKids: (P, seq<C>) -> P,
                              entry: P -> Result<(string, Value), Fault>): (o: Outcome)
    ensures built.Err? ==> o == (t, Err(built.error))
    ensures built.Ok? && |built.value| > 0 && parentMissing ==> o == (t, Err(AttributeError))
    ensures o.1.Ok? ==> (built.Ok? && RemoveChild(built.value, pm, kids, cm, withKids).Ok? &&
      o == WriteAll(t, RemoveChild(built.value, pm, kids, cm, withKids).value, entry))
  {
    match built
    case Err(e) => (t, Err(e))
    case Ok(ps) =>
      if |ps| > 0 && parentMissing then (t, Err(AttributeError))
      else
        match RemoveChild(ps, pm, kids, cm, withKids)
        case Err(e) => (t, Err(e))
        case Ok(ps') => WriteAll(t, ps', entry)
  }

  method RemoveRecord<P, C>(fi: FileInfo, p: string, read: (string, Value) -> Result<P, Fault>, parentMissing: bool,
                            pm: P -> bool, kids: P -> seq<C>, cm: C -> bool, withKids: (P, seq<C>) -> P,
                            entry: P -> Result<(string, Value), Fault>) returns (r: Result<(), Fault>)
    requires fi.Valid()
    modifies fi
    ensures fi.Valid()
    ensures (fi.State(), r) == RemoveEffect(old(fi.State()), Build(old(fi.State()), p, read), parentMissing, pm, kids, cm, withKids, entry)
  {
    var built := BuildRecords(fi, p, read);
    if built.Err? {
      return Err(built.error);
    }
    var ps := built.value;
    if |ps| > 0 && parentMissing {
      return Err(AttributeError);
    }
    var parent, pair := FindLast(ps, pm, kids, cm);
    if parent.None? || pair.None? {
      return Err(TypeError);
    }
    var cs := kids(ps[parent.value]);
    var j := pair.value.1;
    if j >= |cs| {
      return Err(IndexError);
    }
    r := WriteRecords(fi, ps[parent.value := withKids(ps[parent.value], cs[..j] + cs[j + 1..])], entry);
  }

  /** Under unique names the removal writes back the parents with exactly the named child taken out. */
  lemma RemoveEffectUnique<P, C>(t: Table, ps: seq<P>, parentMissing: bool, pm: P -> bool, kids: P -> seq<C>,
                                 cm: C -> bool, withKids: (P, seq<C>) -> P, entry: P -> Result<(string, Value), Fault>,
                                 i: nat, j: nat)
    requires !parentMissing
    requires i < |ps| && pm(ps[i]) && forall k | 0 <= k < |ps| && k != i :: !pm(ps[k])
    requires j < |kids(ps[i])| && cm(kids(ps[i])[j])
    requires forall k | 0 <= k < |kids(ps[i])| && k != j :: !cm(kids(ps[i])[k])
    ensures RemoveEffect(t, Ok(ps), parentMissing, pm, kids, cm, withKids, entry) ==
      WriteAll(t, ps[i := withKids(ps[i], kids(ps[i])[..j] + kids(ps[i])[j + 1..])], entry)
  {
    RemoveChildUnique(ps, pm, kids, cm, withKids, i, j);
  }

  /** When no matching parent holds a matching child, the removal raises before it writes. */
  lemma RemoveEffectMissing<P, C>(t: Table, ps: seq<P>, parentMissing: bool, pm: P -> bool, kids: P -> seq<C>,
                                  cm: C -> bool, withKids: (P, seq<C>) -> P, entry: P -> Result<(string, Value), Fault>)
    requires forall i, j | 0 <= i < |ps| && pm(ps[i]) && 0 <= j < |kids(ps[i])| :: !cm(kids(ps[i])[j])
    ensures RemoveEffect(t, Ok(ps), parentMissing, pm, kids, cm, withKids, entry) ==
      (t, Err(if |ps| > 0 && parentMissing then AttributeError else TypeError))
  {
  }

  function RemoveModelEffect(t: Table, item: TreeItem): Outcome
    requires WellFormed(t)
  {
    RemoveEffect(t, BuildLayers(t), item.parent.None?, LayerNamed(item.parent), LayerModels,
                 ModelNamed(Some(item.text)), WithLayerModels, LayerEntry)
  }

  /** `remove_model(item)`. */
  method RemoveModel(fi: FileInfo, item: TreeItem) returns (r: Result<(), Fault>)
    requires fi.Valid()
    modifies fi
    ensures fi.Valid()
    ensures (fi.State(), r) == RemoveModelEffect(old(fi.State()), item)
  {
    r := RemoveRecord(fi, ModelLayerIdentifier, ReadLayer, item.parent.None?, LayerNamed(item.parent), LayerModels,
                      ModelNamed(Some(item.text)), WithLayerModels, LayerEntry);
  }

  /**
    With one layer of the parent row's name holding one model of the row's
    name, exactly that model leaves that layer, which stays even if now empty,
    and every layer is written back.
  */
  lemma RemoveModelUnique(t: Table, item: TreeItem, ls: seq<LayerData>, i: nat, j: nat)
    requires WellFormed(t) && BuildLayers(t) == Ok(ls) && item.parent.Some?
    requires i < |ls| && ls[i].name == item.parent && (forall k | 0 <= k < |ls| && k != i :: ls[k].name != item.parent) &&
      j < |ls[i].models| && ls[i].models[j].name == Some(item.text) &&
      (forall k | 0 <= k < |ls[i].models| && k != j :: ls[i].models[k].name != Some(item.text))
    ensures RemoveModelEffect(t, item) ==
        WriteAll(t, ls[i := ls[i].(models := ls[i].models[..j] + ls[i].models[j + 1..])], LayerEntry)
  {
    var pm, cm := LayerNamed(item.parent), ModelNamed(Some(item.text));
    var kept := ls[i].models[..j] + ls[i].models[j + 1..];
    assert LayerModels(ls[i]) == ls[i].models;
    assert RemoveEffect(t, Ok(ls), false, pm, LayerModels, cm, WithLayerModels, LayerEntry) ==
        WriteAll(t, ls[i := WithLayerModels(ls[i], LayerModels(ls[i])[..j] + LayerModels(ls[i])[j + 1..])], LayerEntry) by {
      assert pm(ls[i]) && forall k | 0 <= k < |ls| && k != i :: !pm(ls[k]);
      assert cm(ls[i].models[j]) && forall k | 0 <= k < |ls[i].models| && k != j :: !cm(ls[i].models[k]);
      RemoveEffectUnique(t, ls, false, pm, LayerModels, cm, WithLayerModels, LayerEntry, i, j);
    }
    assert WithLayerModels(ls[i], kept) == ls[i].(models := kept);
  }

  /** A row whose model is in no layer of that name cannot be removed: the pop gets a None index. */
  lemma RemoveMissingModel(t: Table, item: TreeItem, ls: seq<LayerData>)
    requires WellFormed(t) && BuildLayers(t) == Ok(ls)
    requires forall i, j | 0 <= i < |ls| && ls[i].name == item.parent && 0 <= j < |ls[i].models| ::
      ls[i].models[j].name != Some(item.text)
    ensures RemoveModelEffect(t, item) == (t, Err(if |ls| > 0 && item.parent.None? then AttributeError else TypeError))
  {
    RemoveEffectMissing(t, ls, item.parent.None?, LayerNamed(item.parent), LayerModels, ModelNamed(Some(item.text)),
                        WithLayerModels, LayerEntry);
  }

  function RemoveAnimationEffect(t: Table, item: TreeItem): Outcome
    requires WellFormed(t)
  {
    RemoveEffect(t, BuildActors(t), item.parent.None?, ActorNamed(item.parent), Animations,
                 AnimNamed(Some(item.text)), WithAnimations, ActorEntry)
  }

  /** `remove_animation(item)`. */
  method RemoveAnimation(fi: FileInfo, item: TreeItem) returns (r: Result<(), Fault>)
    requires fi.Valid()
    modifies fi
    ensures fi.Valid()
    ensures (fi.State(), r) == RemoveAnimationEffect(old(fi.State()), item)
  {
    r := RemoveRecord(fi, ActorIdentifier, ReadActorAsWritten, item.parent.None?, ActorNamed(item.parent), Animations,
                      AnimNamed(Some(item.text)), WithAnimations, ActorEntry);
  }

  /** Under unique names exactly the named animation leaves the named actor. */
  lemma RemoveAnimationUnique(t: Table, item: TreeItem, cs: seq<ActorLayerData>, i: nat, j: nat)
    requires WellFormed(t) && BuildActors(t) == Ok(cs) && item.parent.Some?
    requires i < |cs| && cs[i].name == item.parent && (forall k | 0 <= k < |cs| && k != i :: cs[k].name != item.parent) &&
      j < |cs[i].animations| && cs[i].animations[j].animName == Some(item.text) &&
      (forall k | 0 <= k < |cs[i].animations| && k != j :: cs[i].animations[k].animName != Some(item.text))
    ensures RemoveAnimationEffect(t, item) ==
        WriteAll(t, cs[i := cs[i].(animations := cs[i].animations[..j] + cs[i].animations[j + 1..])], ActorEntry)
  {
    var pm, cm := ActorNamed(item.parent), AnimNamed(Some(item.text));
    var kept := cs[i].animations[..j] + cs[i].animations[j + 1..];
    assert Animations(cs[i]) == cs[i].animations;
    assert RemoveEffect(t, Ok(cs), false, pm, Animations, cm, WithAnimations, ActorEntry) ==
        WriteAll(t, cs[i := WithAnimations(cs[i], Animations(cs[i])[..j] + Animations(cs[i])[j + 1..])], ActorEntry) by {
      assert pm(cs[i]) && forall k | 0 <= k < |cs| && k != i :: !pm(cs[k]);
      assert cm(cs[i].animations[j]) && forall k | 0 <= k < |cs[i].animations| && k != j :: !cm(cs[i].animations[k]);
      RemoveEffectUnique(t, cs, false, pm, Animations, cm, WithAnimations, ActorEntry, i, j);
    }
    assert WithAnimations(cs[i], kept) == cs[i].(animations := kept);
  }

  function RemoveRigModelEffect(t: Table, item: TreeItem): Outcome
    requires WellFormed(t)
  {
    RemoveEffect(t, BuildRigs(t), item.parent.None?, RigNamed(item.parent), RigModels,
                 RigModelNamed(Some(item.text)), WithRigModels, RigEntry)
  }

  /** `remove_rig_model(item)`. */
  method RemoveRigModel(fi: FileInfo, item: TreeItem) returns (r: Result<(), Fault>)
    requires fi.Valid()
    modifies fi
    ensures fi.Valid()
    ensures (fi.State(), r) == RemoveRigModelEffect(old(fi.State()), item)
  {
    r := RemoveRecord(fi, RigLayerIdentifier, ReadRigAt, item.parent.None?, RigNamed(item.parent), RigModels,
                      RigModelNamed(Some(item.text)), WithRigModels, RigEntry);
  }

  /** Under unique names exactly the named model leaves the named rig; a rig's name is read from its document and may be None, so the row must have a parent. */
  lemma RemoveRigModelUnique(t: Table, item: TreeItem, rs: seq<RigLayerData>, i: nat, j: nat)
    requires WellFormed(t) && BuildRigs(t) == Ok(rs) && item.parent.Some?
    requires i < |rs| && rs[i].name == item.parent && (forall k | 0 <= k < |rs| && k != i :: rs[k].name != item.parent) &&
      j < |rs[i].models| && rs[i].models[j].name == Some(item.text) &&
      (forall k | 0 <= k < |rs[i].models| && k != j :: rs[i].models[k].name != Some(item.text))
    ensures RemoveRigModelEffect(t, item) ==
        WriteAll(t, rs[i := rs[i].(models := rs[i].models[..j] + rs[i].models[j + 1..])], RigEntry)
  {
    var pm, cm := RigNamed(item.parent), RigModelNamed(Some(item.text));
    var kept := rs[i].models[..j] + rs[i].models[j + 1..];
    assert RigModels(rs[i]) == rs[i].models;
    assert RemoveEffect(t, Ok(rs), false, pm, RigModels, cm, WithRigModels, RigEntry) ==
        WriteAll(t, rs[i := WithRigModels(rs[i], RigModels(rs[i])[..j] + RigModels(rs[i])[j + 1..])], RigEntry) by {
      assert pm(rs[i]) && forall k | 0 <= k < |rs| && k != i :: !pm(rs[k]);
      assert cm(rs[i].models[j]) && forall k | 0 <= k < |rs[i].models| && k != j :: !cm(rs[i].models[k]);
      RemoveEffectUnique(t, rs, false, pm, RigModels, cm, WithRigModels, RigEntry, i, j);
    }
    assert WithRigModels(rs[i], kept) == rs[i].(models := kept);
  }

  // ---------------------------------------------------------------------
  // Rig edits

  function RigModelRenamed(newName: string): RigModelData -> RigModelData {
    (m: RigModelData) => m.(name := Some(newName))
  }

  function RigRenamed(newName: string): RigLayerData -> RigLayerData {
    (r: RigLayerData) => r.(name := Some(newName))
  }

  /**
    A rig-model row renames every model of the old name in every rig; a rig
    row renames the rigs of the old name and removes the old key before the
    write. Any other row leaves `rigs` unassigned, so the write raises
    UnboundLocalError.
  */
  function ChangeRigNameEffect(t: Table, item: TreeItem, oldName: string): Outcome
    requires WellFormed(t)
  {
    if item.kind == RigsStr then
      EditEffect(t, BuildRigs(t), false, AnyRig(), InRigModels(Some(oldName), RigModelRenamed(item.text)), None, RigEntry)
    else if item.kind == RigLayerIdentifier then
      EditEffect(t, BuildRigs(t), false, RigNamed(Some(oldName)), RigRenamed(item.text),
                 Some(RigLayerIdentifier + oldName), RigEntry)
    else (t, Err(UnboundLocalError))
  }

  /** `change_rig_name(item, old_name)`. */
  method ChangeRigName(fi: FileInfo, item: TreeItem, oldName: string) returns (r: Result<(), Fault>)
    requires fi.Valid()
    modifies fi
    ensures fi.Valid()
    ensures (fi.State(), r) == ChangeRigNameEffect(old(fi.State()), item, oldName)
  {
    if item.kind == RigsStr {
      r := EditRecords(fi, RigLayerIdentifier, ReadRigAt, false, AnyRig(),
                       InRigModels(Some(oldName), RigModelRenamed(item.text)), None, RigEntry);
    } else if item.kind == RigLayerIdentifier {
      r := EditRecords(fi, RigLayerIdentifier, ReadRigAt, false, RigNamed(Some(oldName)), RigRenamed(item.text),
                       Some(RigLayerIdentifier + oldName), RigEntry);
    } else {
      r := Err(UnboundLocalError);
    }
  }

  /** A write in which every entry succeeds stores every record under its key. */
  lemma AllWritten<R>(t: Table, rs: seq<R>, entry: R -> Result<(string, Value), Fault>)
    requires WellFormed(t) && WriteAll(t, rs, entry).1.Ok?
    ensures forall i | 0 <= i < |rs| :: entry(rs[i]).Ok? && entry(rs[i]).value.0 in WriteAll(t, rs, entry).0.vals
  {
    WriteAllOk(t, rs, entry);
    forall i | 0 <= i < |rs|
      ensures entry(rs[i]).Ok? && entry(rs[i]).value.0 in WriteAll(t, rs, entry).0.vals
    {
      WrittenKeyPresent(t, rs, entry, i);
    }
  }

  /** A write keeps a key out of the table when it was out and no record is named by it. */
  lemma RigKeyStaysOut(t: Table, rs: seq<RigLayerData>, n: string)
    requires WellFormed(t) && RigLayerIdentifier + n !in t.vals
    requires forall i | 0 <= i < |rs| :: rs[i].name != Some(n)
    ensures RigLayerIdentifier + n !in WriteAll(t, rs, RigEntry).0.vals
  {
    forall i | 0 <= i < |rs| && RigEntry(rs[i]).Ok?
      ensures RigEntry(rs[i]).value.0 != RigLayerIdentifier + n
    {
      KeysDiffer(RigLayerIdentifier, rs[i].name.value, n);
    }
    WriteAllFrame(t, rs, RigEntry);
  }

  /**
    Renaming a rig that goes through leaves no key under the old name when
    the new name differs, and stores every rig under its current name.
  */
  lemma ChangeRigNameMovesKey(t: Table, item: TreeItem, oldName: string, rs: seq<RigLayerData>)
    requires WellFormed(t) && BuildRigs(t) == Ok(rs) && item.kind == RigLayerIdentifier && item.text != oldName
    requires ChangeRigNameEffect(t, item, oldName).1.Ok?
    ensures var o := ChangeRigNameEffect(t, item, oldName);
      var rs' := MapWhere(rs, RigNamed(Some(oldName)), RigRenamed(item.text));
      RigLayerIdentifier + oldName !in o.0.vals &&
      forall i | 0 <= i < |rs'| :: rs'[i].name.Some? && RigLayerIdentifier + rs'[i].name.value in o.0.vals
  {
    assert item.kind != RigsStr by {
      assert RigLayerIdentifier[0] != RigsStr[0];
    }
    var k := RigLayerIdentifier + oldName;
    var rs' := MapWhere(rs, RigNamed(Some(oldName)), RigRenamed(item.text));
    var d := Delete(t, k);
    DeleteWellFormed(t, k);
    assert ChangeRigNameEffect(t, item, oldName) == WriteAll(d, rs', RigEntry);
    RigKeyStaysOut(d, rs', oldName);
    AllWritten(d, rs', RigEntry);
  }

  function Influenced(influences: string): RigModelData -> RigModelData {
    (m: RigModelData) => m.(influences := Some(influences))
  }

  function ChangeRigInfluencesEffect(t: Table, item: TreeItem, influences: string): Outcome
    requires WellFormed(t)
  {
    EditEffect(t, BuildRigs(t), item.parent.None?, RigNamed(item.parent),
               InRigModels(Some(item.text), Influenced(influences)), None, RigEntry)
  }

  /** `change_rig_influences(item, influences)`. */
  method ChangeRigInfluences(fi: FileInfo, item: TreeItem, influences: string) returns (r: Result<(), Fault>)
    requires fi.Valid()
    modifies fi
    ensures fi.Valid()
    ensures (fi.State(), r) == ChangeRigInfluencesEffect(old(fi.State()), item, influences)
  {
    r := EditRecords(fi, RigLayerIdentifier, ReadRigAt, item.parent.None?, RigNamed(item.parent),
                     InRigModels(Some(item.text), Influenced(influences)), None, RigEntry);
  }

  /**
    After an influences change that goes through, the rig stored under the
    parent row's name reads back with exactly the models named like the row
    carrying the new influences and its other fields as they were.
  */
  lemma ChangeRigInfluencesStored(t: Table, item: TreeItem, influences: string, rs: seq<RigLayerData>, i: nat, j: nat)
    requires WellFormed(t) && BuildRigs(t) == Ok(rs)
    requires ChangeRigInfluencesEffect(t, item, influences).1.Ok?
    requires i < |rs| && rs[i].name == item.parent
    requires forall k | i < k < |rs| :: rs[k].name != item.parent
    requires j < |rs[i].models| && rs[i].models[j].name == Some(item.text)
    ensures item.parent.Some?
    ensures var o := ChangeRigInfluencesEffect(t, item, influences);
      var key := RigLayerIdentifier + item.parent.value;
      key in o.0.vals && ReadRig(o.0.vals[key]).Ok? &&
      ReadRig(o.0.vals[key]).value ==
        RigAsRead(rs[i].(models := MapWhere(rs[i].models, RigModelNamed(Some(item.text)), Influenced(influences)))) &&
      ReadRig(o.0.vals[key]).value.models[j].influences == Stored(Some(influences))
    ensures var o := ChangeRigInfluencesEffect(t, item, influences);
      var key := RigLayerIdentifier + item.parent.value;
      ReadRigAsWritten(o.0.vals[key]).Ok? ==> ReadRigAsWritten(o.0.vals[key]) == ReadRig(o.0.vals[key])
  {
    var f := InRigModels(Some(item.text), Influenced(influences));
    var rs' := MapWhere(rs, RigNamed(item.parent), f);
    assert ChangeRigInfluencesEffect(t, item, influences) == WriteAll(t, rs', RigEntry);
    WriteAllOk(t, rs', RigEntry);
    assert RigEntry(rs'[i]).Ok?;
    forall k | i < k < |rs'|
      ensures RigEntry(rs'[k]).value.0 != RigEntry(rs'[i]).value.0
    {
      assert RigEntry(rs'[k]).Ok?;
      KeysDiffer(RigLayerIdentifier, rs'[k].name.value, item.parent.value);
    }
    WriteAllWritten(t, rs', RigEntry, i);
    RigRoundTrip(rs'[i]);
    RigReadableAsWritten(rs'[i]);
    assert rs'[i] == f(rs[i]);
  }

  /** `'rig_path'` sets the rig path, `'anim_path'` the animation path, anything else nothing. */
  function RigPathSet(newPath: string, assetType: string): RigLayerData -> RigLayerData {
    (r: RigLayerData) => if assetType == "rig_path" then r.(rigPath := Some(newPath))
                         else if assetType == "anim_path" then r.(animationPath := Some(newPath))
                         else r
  }

  function ChangeRigLayerPathEffect(t: Table, item: TreeItem, newPath: string, assetType: string): Outcome
    requires WellFormed(t)
  {
    EditEffect(t, BuildRigs(t), false, RigNamed(Some(item.text)), RigPathSet(newPath, assetType), None, RigEntry)
  }

  /** `change_rig_layer_path(item, new_path, asset_type)`: the row is the rig itself, so no parent is read. */
  method ChangeRigLayerPath(fi: FileInfo, item: TreeItem, newPath: string, assetType: string) returns (r: Result<(), Fault>)
    requires fi.Valid()
    modifies fi
    ensures fi.Valid()
    ensures (fi.State(), r) == ChangeRigLayerPathEffect(old(fi.State()), item, newPath, assetType)
  {
    r := EditRecords(fi, RigLayerIdentifier, ReadRigAt, false, RigNamed(Some(item.text)),
                     RigPathSet(newPath, assetType), None, RigEntry);
  }

  /**
    After a path change that goes through, the rig stored under the row's
    name reads back with the new path in the field `asset_type` names and the
    other path as it was.
  */
  lemma ChangeRigLayerPathStored(t: Table, item: TreeItem, newPath: string, assetType: string, rs: seq<RigLayerData>, i: nat)
    requires WellFormed(t) && BuildRigs(t) == Ok(rs)
    requires ChangeRigLayerPathEffect(t, item, newPath, assetType).1.Ok?
    requires i < |rs| && rs[i].name == Some(item.text)
    requires forall k | i < k < |rs| :: rs[k].name != Some(item.text)
    ensures var o := ChangeRigLayerPathEffect(t, item, newPath, assetType);
      var key := RigLayerIdentifier + item.text;
      key in o.0.vals && ReadRig(o.0.vals[key]).Ok? &&
      ReadRig(o.0.vals[key]).value.rigPath == (if assetType == "rig_path" then Stored(Some(newPath)) else Stored(rs[i].rigPath)) &&
      ReadRig(o.0.vals[key]).value.animationPath ==
        (if assetType == "rig_path" || assetType != "anim_path" then Stored(rs[i].animationPath) else Stored(Some(newPath)))
    ensures var o := ChangeRigLayerPathEffect(t, item, newPath, assetType);
      var key := RigLayerIdentifier + item.text;
      ReadRigAsWritten(o.0.vals[key]).Ok? ==> ReadRigAsWritten(o.0.vals[key]) == ReadRig(o.0.vals[key])
  {
    var rs' := MapWhere(rs, RigNamed(Some(item.text)), RigPathSet(newPath, assetType));
    assert ChangeRigLayerPathEffect(t, item, newPath, assetType) == WriteAll(t, rs', RigEntry);
    WriteAllOk(t, rs', RigEntry);
    forall k | i < k < |rs'|
      ensures RigEntry(rs'[k]).value.0 != RigEntry(rs'[i]).value.0
    {
      assert RigEntry(rs'[k]).Ok?;
      KeysDiffer(RigLayerIdentifier, rs'[k].name.value, item.text);
    }
    WriteAllWritten(t, rs', RigEntry, i);
    RigRoundTrip(rs'[i]);
    RigReadableAsWritten(rs'[i]);
  }

  // ---------------------------------------------------------------------
  // Layer edits

  function LayerRenamed(newName: string): LayerData -> LayerData {
    (l: LayerData) => l.(name := Some(newName))
  }

  function ModelRenamed(newName: string): ModelData -> ModelData {
    (m: ModelData) => m.(name := Some(newName))
  }

  /** `check_exists_layer` as the rename calls it: some key contains the new layer key. */
  predicate LayerNameInUse(keys: seq<string>, key: string) {
    exists k | k in keys :: Contains(k, key)
  }

  /**
    The layer branch of the rename: every layer of the old name takes the
    new name and, for each, the old key is removed; then every layer is
    written back.
  */
  function RenameLayersEffect(t: Table, item: TreeItem, oldName: string): Outcome
    requires WellFormed(t)
  {
    match BuildLayers(t)
    case Err(e) => (t, Err(e))
    case Ok(ls) =>
      var renamed := exists i | 0 <= i < |ls| :: ls[i].name == Some(oldName);
      WriteAll(if renamed then Delete(t, ModelLayerIdentifier + oldName) else t,
               MapWhere(ls, LayerNamed(Some(oldName)), LayerRenamed(item.text)), LayerEntry)
  }

  /**
    `change_layer_model_name(item, old_name)`, given the outcome `inUse` of
    the duplicate-name test. A refused rename returns before writing; a row
    that is neither a layer nor a model leaves `layers` unassigned.
  */
  function ChangeLayerModelNameEffect(t: Table, item: TreeItem, oldName: string, inUse: bool): Outcome
    requires WellFormed(t)
  {
    if item.kind == ModelLayerStr then
      if inUse then (t, Ok(())) else RenameLayersEffect(t, item, oldName)
    else if item.kind == ModelsStr then
      EditEffect(t, BuildLayers(t), item.parent.None?, LayerNamed(item.parent),
                 InLayerModels(Some(oldName), ModelRenamed(item.text)), None, LayerEntry)
    else (t, Err(UnboundLocalError))
  }

  /** The loop of the layer branch: rename in memory, removing the old key at each layer renamed. */
  method RenameLayersIn(fi: FileInfo, ls: seq<LayerData>, oldName: string, newName: string) returns (out: seq<LayerData>)
    requires fi.Valid()
    modifies fi
    ensures fi.Valid()
    ensures out == MapWhere(ls, LayerNamed(Some(oldName)), LayerRenamed(newName))
    ensures fi.State() == if exists j | 0 <= j < |ls| :: ls[j].name == Some(oldName)
                          then Delete(old(fi.State()), ModelLayerIdentifier + oldName) else old(fi.State())
  {
    var k := ModelLayerIdentifier + oldName;
    ghost var t0 := fi.State();
    ghost var renamed := false;
    DeleteWellFormed(t0, k);
    out := [];
    var i := 0;
    while i < |ls|
      invariant 0 <= i <= |ls| && |out| == i && fi.Valid()
      invariant forall j | 0 <= j < i :: out[j] == (if ls[j].name == Some(oldName) then ls[j].(name := Some(newName)) else ls[j])
      invariant renamed <==> exists j | 0 <= j < i :: ls[j].name == Some(oldName)
      invariant fi.State() == if renamed then Delete(t0, k) else t0
    {
      var layer := ls[i];
      if layer.name == Some(oldName) {
        layer := layer.(name := Some(newName));
        RemoveKey(fi, k);
        renamed := true;
      }
      out := out + [layer];
      i := i + 1;
    }
  }

  method RenameLayers(fi: FileInfo, item: TreeItem, oldName: string) returns (r: Result<(), Fault>)
    requires fi.Valid()
    modifies fi
    ensures fi.Valid()
    ensures (fi.State(), r) == RenameLayersEffect(old(fi.State()), item, oldName)
  {
    var built := BuildRecords(fi, ModelLayerIdentifier, ReadLayer);
    if built.Err? {
      return Err(built.error);
    }
    var out := RenameLayersIn(fi, built.value, oldName, item.text);
    r := WriteRecords(fi, out, LayerEntry);
  }

  /**
    `change_layer_model_name(item, old_name)`, refusing a new layer name
    whose key is already stored.
  */
  method ChangeLayerModelName(fi: FileInfo, item: TreeItem, oldName: string) returns (r: Result<(), Fault>)
    requires fi.Valid()
    modifies fi
    ensures fi.Valid()
    ensures (fi.State(), r) ==
      ChangeLayerModelNameEffect(old(fi.State()), item, oldName, ModelLayerIdentifier + item.text in old(fi.keys))
  {
    if item.kind == ModelLayerStr {
      var inUse := ObjectInData(fi, item.text, ModelLayerIdentifier);
      if inUse {
        return Ok(());
      }
      r := RenameLayers(fi, item, oldName);
    } else if item.kind == ModelsStr {
      r := EditRecords(fi, ModelLayerIdentifier, ReadLayer, item.parent.None?, LayerNamed(item.parent),
                       InLayerModels(Some(oldName), ModelRenamed(item.text)), None, LayerEntry);
    } else {
      r := Err(UnboundLocalError);
    }
  }

  /** `change_layer_model_name(item, old_name)` as written: the duplicate test is `check_exists_layer`, a substring test. */
  method ChangeLayerModelNameAsWritten(fi: FileInfo, item: TreeItem, oldName: string) returns (r: Result<(), Fault>)
    requires fi.Valid()
    modifies fi
    ensures fi.Valid()
    ensures (fi.State(), r) ==
      ChangeLayerModelNameEffect(old(fi.State()), item, oldName, LayerNameInUse(old(fi.keys), ModelLayerIdentifier + item.text))
  {
    if item.kind == ModelLayerStr {
      var inUse := CheckExistsLayer(fi, ModelLayerIdentifier + item.text);
      if inUse {
        return Ok(());
      }
      r := RenameLayers(fi, item, oldName);
    } else if item.kind == ModelsStr {
      r := EditRecords(fi, ModelLayerIdentifier, ReadLayer, item.parent.None?, LayerNamed(item.parent),
                       InLayerModels(Some(oldName), ModelRenamed(item.text)), None, LayerEntry);
    } else {
      r := Err(UnboundLocalError);
    }
  }

  /**
    The substring test refuses a name no layer has: with a single layer
    stored as `ab`, renaming a layer to `a` is turned down, although no key
    `a` is stored, while the exact test lets the rename through.
  */
  lemma DuplicateTestRefusesFreeName(t: Table, item: TreeItem)
    requires t.keys == [ModelLayerIdentifier + "ab"] && t.vals.Keys == {ModelLayerIdentifier + "ab"}
    requires item.text == "a" && item.kind == ModelLayerStr
    ensures WellFormed(t)
    ensures LayerNameInUse(t.keys, ModelLayerIdentifier + item.text)
    ensures ModelLayerIdentifier + item.text !in t.keys
    ensures ChangeLayerModelNameEffect(t, item, "ab", LayerNameInUse(t.keys, ModelLayerIdentifier + item.text)) == (t, Ok(()))
    ensures ChangeLayerModelNameEffect(t, item, "ab", ModelLayerIdentifier + item.text in t.keys) == RenameLayersEffect(t, item, "ab")
  {
    var key := ModelLayerIdentifier + "a";
    assert StartsWith(key, key);
    assert ModelLayerIdentifier + "ab" == key + "b";
    ContainsPrefixPart(key, "b", key);
    assert t.keys[0] in t.keys;
    assert |key| < |ModelLayerIdentifier + "ab"|;
  }

  /** The exact test refuses exactly the names some layer is stored under. */
  lemma ExactDuplicateTest(t: Table, name: string)
    requires WellFormed(t)
    ensures ModelLayerIdentifier + name in t.keys <==> ModelLayerIdentifier + name in KeysWith(t.keys, ModelLayerIdentifier)
  {
    ContainsWhole([], ModelLayerIdentifier);
    ContainsSuffix([], ModelLayerIdentifier, ModelLayerIdentifier);
    assert StartsWith(ModelLayerIdentifier + name, ModelLayerIdentifier);
  }

  lemma LayerKeyStaysOut(t: Table, ls: seq<LayerData>, n: string)
    requires WellFormed(t) && ModelLayerIdentifier + n !in t.vals
    requires forall i | 0 <= i < |ls| :: ls[i].name != Some(n)
    ensures ModelLayerIdentifier + n !in WriteAll(t, ls, LayerEntry).0.vals
  {
    forall i | 0 <= i < |ls| && LayerEntry(ls[i]).Ok?
      ensures LayerEntry(ls[i]).value.0 != ModelLayerIdentifier + n
    {
      KeysDiffer(ModelLayerIdentifier, ls[i].name.value, n);
    }
    WriteAllFrame(t, ls, LayerEntry);
  }

  /**
    A layer rename that goes through removes the old key when the new name
    differs, and stores every layer under its current name.
  */
  lemma RenameLayersMovesKey(t: Table, item: TreeItem, oldName: string, ls: seq<LayerData>, i: nat)
    requires WellFormed(t) && BuildLayers(t) == Ok(ls) && item.text != oldName
    requires i < |ls| && ls[i].name == Some(oldName)
    requires RenameLayersEffect(t, item, oldName).1.Ok?
    ensures var o := RenameLayersEffect(t, item, oldName);
      var ls' := MapWhere(ls, LayerNamed(Some(oldName)), LayerRenamed(item.text));
      ModelLayerIdentifier + oldName !in o.0.vals &&
      forall j | 0 <= j < |ls'| :: ls'[j].name.Some? && ModelLayerIdentifier + ls'[j].name.value in o.0.vals
  {
    var k := ModelLayerIdentifier + oldName;
    var p, f := LayerNamed(Some(oldName)), LayerRenamed(item.text);
    var ls' := MapWhere(ls, p, f);
    var d := Delete(t, k);
    DeleteWellFormed(t, k);
    assert p(ls[i]);
    assert RenameLayersEffect(t, item, oldName) == WriteAll(d, ls', LayerEntry);
    assert k !in d.vals;
    forall j | 0 <= j < |ls'| ensures ls'[j].name != Some(oldName) {
      if p(ls[j]) {
        assert ls'[j] == f(ls[j]) && f(ls[j]).name == Some(item.text);
      } else {
        assert ls'[j] == ls[j];
      }
    }
    LayerKeyStaysOut(d, ls', oldName);
    AllWritten(d, ls', LayerEntry);
    forall j | 0 <= j < |ls'| ensures ls'[j].name.Some? && ModelLayerIdentifier + ls'[j].name.value in WriteAll(d, ls', LayerEntry).0.vals {
      assert LayerEntry(ls'[j]).Ok?;
    }
  }

  function LayerPathSet(newPath: string): LayerData -> LayerData {
    (l: LayerData) => l.(path := Some(newPath))
  }

  function ModelPathSet(newPath: string): ModelData -> ModelData {
    (m: ModelData) => m.(path := Some(newPath))
  }

  function ChangeLayerPathEffect(t: Table, item: TreeItem, newPath: string): Outcome
    requires WellFormed(t)
  {
    EditEffect(t, BuildLayers(t), false, LayerNamed(Some(item.text)), LayerPathSet(newPath), None, LayerEntry)
  }

  /** `change_layer_path(item, new_path)`: the row is the layer itself. */
  method ChangeLayerPath(fi: FileInfo, item: TreeItem, newPath: string) returns (r: Result<(), Fault>)
    requires fi.Valid()
    modifies fi
    ensures fi.Valid()
    ensures (fi.State(), r) == ChangeLayerPathEffect(old(fi.State()), item, newPath)
  {
    r := EditRecords(fi, ModelLayerIdentifier, ReadLayer, false, LayerNamed(Some(item.text)), LayerPathSet(newPath),
                     None, LayerEntry);
  }

  /**
    After a layer path change that goes through, the layer stored under the
    row's name reads back with the new path (None for an empty one) and its
    models as they were read.
  */
  lemma ChangeLayerPathStored(t: Table, item: TreeItem, newPath: string, ls: seq<LayerData>, i: nat)
    requires WellFormed(t) && BuildLayers(t) == Ok(ls)
    requires ChangeLayerPathEffect(t, item, newPath).1.Ok?
    requires i < |ls| && ls[i].name == Some(item.text)
    requires forall k | i < k < |ls| :: ls[k].name != Some(item.text)
    ensures var o := ChangeLayerPathEffect(t, item, newPath);
      var key := ModelLayerIdentifier + item.text;
      key in o.0.vals && ReadLayer(key, o.0.vals[key]).Ok? &&
      ReadLayer(key, o.0.vals[key]).value.path == Stored(Some(newPath)) &&
      ReadLayer(key, o.0.vals[key]).value.models == ModelsAsRead(ls[i].models)
  {
    var ls' := MapWhere(ls, LayerNamed(Some(item.text)), LayerPathSet(newPath));
    assert ChangeLayerPathEffect(t, item, newPath) == WriteAll(t, ls', LayerEntry);
    WriteAllOk(t, ls', LayerEntry);
    forall k | i < k < |ls'|
      ensures LayerEntry(ls'[k]).value.0 != LayerEntry(ls'[i]).value.0
    {
      assert LayerEntry(ls'[k]).Ok?;
      KeysDiffer(ModelLayerIdentifier, ls'[k].name.value, item.text);
    }
    WriteAllWritten(t, ls', LayerEntry, i);
    LayerRoundTrip(ls'[i], ModelLayerIdentifier + item.text);
  }

  function ChangeModelPathEffect(t: Table, item: TreeItem, newPath: string): Outcome
    requires WellFormed(t)
  {
    EditEffect(t, BuildLayers(t), item.parent.None?, LayerNamed(item.parent),
               InLayerModels(Some(item.text), ModelPathSet(newPath)), None, LayerEntry)
  }

  /** `change_model_path(item, new_path)`. */
  method ChangeModelPath(fi: FileInfo, item: TreeItem, newPath: string) returns (r: Result<(), Fault>)
    requires fi.Valid()
    modifies fi
    ensures fi.Valid()
    ensures (fi.State(), r) == ChangeModelPathEffect(old(fi.State()), item, newPath)
  {
    r := EditRecords(fi, ModelLayerIdentifier, ReadLayer, item.parent.None?, LayerNamed(item.parent),
                     InLayerModels(Some(item.text), ModelPathSet(newPath)), None, LayerEntry);
  }

  /**
    After a model path change that goes through, the layer stored under the
    parent row's name reads back with its own path as it was and with exactly
    the models named like the row carrying the new path (None for an empty one).
  */
  lemma ChangeModelPathStored(t: Table, item: TreeItem, newPath: string, ls: seq<LayerData>, i: nat, j: nat)
    requires WellFormed(t) && BuildLayers(t) == Ok(ls)
    requires ChangeModelPathEffect(t, item, newPath).1.Ok?
    requires i < |ls| && ls[i].name == item.parent
    requires forall k | i < k < |ls| :: ls[k].name != item.parent
    requires j < |ls[i].models| && ls[i].models[j].name == Some(item.text)
    ensures item.parent.Some?
    ensures var o := ChangeModelPathEffect(t, item, newPath);
      var key := ModelLayerIdentifier + item.parent.value;
      key in o.0.vals && ReadLayer(key, o.0.vals[key]).Ok? &&
      ReadLayer(key, o.0.vals[key]).value.path == Stored(ls[i].path) &&
      ReadLayer(key, o.0.vals[key]).value.models ==
        ModelsAsRead(MapWhere(ls[i].models, ModelNamed(Some(item.text)), ModelPathSet(newPath))) &&
      ReadLayer(key, o.0.vals[key]).value.models[j].path == Stored(Some(newPath))
  {
    var f := InLayerModels(Some(item.text), ModelPathSet(newPath));
    var ls' := MapWhere(ls, LayerNamed(item.parent), f);
    assert ChangeModelPathEffect(t, item, newPath) == WriteAll(t, ls', LayerEntry);
    WriteAllOk(t, ls', LayerEntry);
    assert LayerEntry(ls'[i]).Ok?;
    var key := ModelLayerIdentifier + item.parent.value;
    forall k | i < k < |ls'|
      ensures LayerEntry(ls'[k]).value.0 != LayerEntry(ls'[i]).value.0
    {
      assert LayerEntry(ls'[k]).Ok?;
      KeysDiffer(ModelLayerIdentifier, ls'[k].name.value, item.parent.value);
    }
    WriteAllWritten(t, ls', LayerEntry, i);
    LayerRoundTrip(ls'[i], key);
    assert ls'[i] == f(ls[i]);
  }

  // ---------------------------------------------------------------------
  // Export item names

  function ItemHolder(name: string): ModelData -> bool {
    (m: ModelData) => name in m.exportItems
  }

  function RigItemHolder(name: string): RigModelData -> bool {
    (m: RigModelData) => name in m.exportItems
  }

  /** Model `j` of the layer with its first `oldName` export item popped and `newName` appended. */
  function ItemRenamedAt(l: LayerData, j: nat, oldName: string, newName: string): LayerData
    requires j < |l.models| && oldName in l.models[j].exportItems
  {
    l.(models := l.models[j := l.models[j].(exportItems := ReplaceItem(l.models[j].exportItems, oldName, newName))])
  }

  /**
    `change_export_item_name(old_name, new_name, identifier)`: true once the
    first model holding the item is renamed and every layer written. Actors
    have no `models` and raise AttributeError as soon as there is one; a rig
    model holding the item makes the layer writer look for the rig's `path`,
    which rigs do not have.
  */
  function ChangeExportItemNameEffect(t: Table, oldName: string, newName: string, identifier: string): (Table, Result<bool, Fault>)
    requires WellFormed(t)
  {
    RenameExportItemIn(t, BuildClassFromDataAsWritten(t, identifier), oldName, newName)
  }

  /** Asked about scene layers, the rename finds no records: it answers false and writes nothing. */
  lemma ChangeExportItemNameSceneLayers(t: Table, oldName: string, newName: string)
    requires WellFormed(t)
    ensures ChangeExportItemNameEffect(t, oldName, newName, SceneLayerIdentifier) == (t, Ok(false))
  {
    SceneLayersNeverBuilt(t);
  }

  function RenameExportItemIn(t: Table, built: Result<Built, Fault>, oldName: string, newName: string): (Table, Result<bool, Fault>) {
    match built
    case Err(e) => (t, Err(e))
    case Ok(Nothing) => (t, Ok(false))
    case Ok(Actors(cs)) => (t, if |cs| > 0 then Err(AttributeError) else Ok(false))
    case Ok(Rigs(rs)) => (t, if FirstHolder(rs, RigModels, RigItemHolder(oldName)).Some? then Err(AttributeError) else Ok(false))
    case Ok(Layers(ls)) =>
      match FirstHolder(ls, LayerModels, ItemHolder(oldName))
      case None => (t, Ok(false))
      case Some((i, j)) =>
        var o := WriteAll(t, ls[i := ItemRenamedAt(ls[i], j, oldName, newName)], LayerEntry);
        (o.0, if o.1.Ok? then Ok(true) else Err(o.1.error))
  }

  method ChangeExportItemName(fi: FileInfo, oldName: string, newName: string, identifier: string) returns (r: Result<bool, Fault>)
    requires fi.Valid()
    modifies fi
    ensures fi.Valid()
    ensures (fi.State(), r) == ChangeExportItemNameEffect(old(fi.State()), oldName, newName, identifier)
  {
    var built := BuildClass(fi, identifier);
    if built.Err? {
      return Err(built.error);
    }
    match built.value
    case Nothing =>
      return Ok(false);
    case Actors(cs) =>
      return if |cs| > 0 then Err(AttributeError) else Ok(false);
    case Rigs(rs) =>
      var h := FindHolder(rs, RigModels, RigItemHolder(oldName));
      return if h.Some? then Err(AttributeError) else Ok(false);
    case Layers(ls) =>
      var h := FindHolder(ls, LayerModels, ItemHolder(oldName));
      if h.None? {
        return Ok(false);
      }
      var i, j := h.value.0, h.value.1;
      var w := WriteRecords(fi, ls[i := ItemRenamedAt(ls[i], j, oldName, newName)], LayerEntry);
      return if w.Ok? then Ok(true) else Err(w.error);
  }

  lemma ModelLayersBuilt(t: Table, ls: seq<LayerData>)
    requires WellFormed(t) && BuildLayers(t) == Ok(ls)
    ensures BuildClassFromDataAsWritten(t, ModelLayerIdentifier) == Ok(Layers(ls))
    ensures BuildClassFromData(t, ModelLayerIdentifier) == Ok(Layers(ls))
  {
  }

  /** On model layers the answer is false, with nothing written, exactly when no model holds the item. */
  lemma ChangeExportItemNameNoHolder(t: Table, oldName: string, newName: string, ls: seq<LayerData>)
    ensures RenameExportItemIn(t, Ok(Layers(ls)), oldName, newName) == (t, Ok(false)) <==>
      forall i, j | 0 <= i < |ls| && 0 <= j < |ls[i].models| :: oldName !in ls[i].models[j].exportItems
  {
    var h := FirstHolder(ls, LayerModels, ItemHolder(oldName));
    if h.Some? {
      assert ItemHolder(oldName)(LayerModels(ls[h.value.0])[h.value.1]);
    } else {
      forall i, j | 0 <= i < |ls| && 0 <= j < |ls[i].models|
        ensures oldName !in ls[i].models[j].exportItems
      {
        assert LayerModels(ls[i]) == ls[i].models;
        assert !ItemHolder(oldName)(LayerModels(ls[i])[j]);
      }
    }
  }

  /**
    The model renamed is the first holding the item, in layer and model
    order; the others keep the item even when they hold it too.
  */
  lemma ChangeExportItemNameFirst(t: Table, oldName: string, newName: string, ls: seq<LayerData>, i: nat, j: nat)
    requires i < |ls| && j < |ls[i].models| && oldName in ls[i].models[j].exportItems
    requires forall i', j' | 0 <= i' < i && 0 <= j' < |ls[i'].models| :: oldName !in ls[i'].models[j'].exportItems
    requires forall j' | 0 <= j' < j :: oldName !in ls[i].models[j'].exportItems
    ensures var w := WriteAll(t, ls[i := ItemRenamedAt(ls[i], j, oldName, newName)], LayerEntry);
      RenameExportItemIn(t, Ok(Layers(ls)), oldName, newName) == (w.0, if w.1.Ok? then Ok(true) else Err(w.1.error))
  {
    assert ItemHolder(oldName)(LayerModels(ls[i])[j]);
    assert forall i', j' | 0 <= i' < i && 0 <= j' < |ls[i'].models| :: !ItemHolder(oldName)(LayerModels(ls[i'])[j']);
    assert forall j' | 0 <= j' < j :: !ItemHolder(oldName)(LayerModels(ls[i])[j']);
    FirstHolderUnique(ls, LayerModels, ItemHolder(oldName), i, j);
  }

  /** The renamed model keeps its items as a multiset, one `oldName` traded for `newName`, which comes last. */
  lemma ItemRenamedAtItems(l: LayerData, j: nat, oldName: string, newName: string)
    requires j < |l.models| && oldName in l.models[j].exportItems
    ensures var m := ItemRenamedAt(l, j, oldName, newName).models[j];
      multiset(m.exportItems) == multiset(l.models[j].exportItems) - multiset{oldName} + multiset{newName} &&
      m.exportItems[|m.exportItems| - 1] == newName &&
      m.(exportItems := l.models[j].exportItems) == l.models[j]
    ensures forall k | 0 <= k < |l.models| && k != j :: ItemRenamedAt(l, j, oldName, newName).models[k] == l.models[k]
  {
  }
}
