/**
  The exporter's records (`fbxexporters/__init__.py`): the key prefixes and tag
  names it stores them under, the records for model layers, actors, rigs and
  export options, and the values a fresh record starts from.
*/
module Records {
  import opened Wrappers
  import opened PyCore

  // ---------------------------------------------------------------------
  // Identifiers: key prefixes and XML tag names

  const ActorIdentifier := "_fbx_export_actor_"
  const AnimationsStr := "animations"
  const AnimationPathStr := "_animation_path_"
  const ModelLayerStr := "layers"
  const ModelStr := "model"
  const ModelsStr := "models"
  const ModelLayerIdentifier := "_fbx_export_model_layer_"
  /** `'./models/model'`: the `model` children of the `models` child. */
  const ModelXmlPath := (ModelsStr, ModelStr)
  const RigIdentifier := "_fbx_export_rig_"
  const RigLayerIdentifier := "_fbx_export_rig_"
  const RigsStr := "rigs"
  const RootStr := "root"
  const SceneLayerIdentifier := "_fbx_scene_layer_"

  /** Rig attributes and rig-layer keys are filed under one and the same prefix. */
  lemma RigPrefixesShared()
    ensures RigIdentifier == RigLayerIdentifier
    ensures forall n :: RigIdentifier + n == RigLayerIdentifier + n
  {
  }

  /** A character that occurs in `s` but not in `p` keeps `p` from containing `s`. */
  lemma WitnessNotContained(p: string, s: string, c: char)
    requires c in s && c !in p
    ensures !Contains(p, s)
  {
    if Contains(p, s) {
      ContainsKeepsChars(p, s, c);
    }
  }

  /**
    None of the three record prefixes (actor, model layer, rig layer) occurs
    inside another, so each prefix alone never selects another kind's prefix.
  */
  lemma PrefixesDisjoint()
    ensures !Contains(ActorIdentifier, ModelLayerIdentifier) && !Contains(ModelLayerIdentifier, ActorIdentifier)
    ensures !Contains(ActorIdentifier, RigLayerIdentifier) && !Contains(RigLayerIdentifier, ActorIdentifier)
    ensures !Contains(ModelLayerIdentifier, RigLayerIdentifier) && !Contains(RigLayerIdentifier, ModelLayerIdentifier)
  {
    OnlyModelLayerHasM();
    OnlyActorHasC();
    OnlyRigHasG();
  }

  lemma OnlyModelLayerHasM()
    ensures !Contains(ActorIdentifier, ModelLayerIdentifier) && !Contains(RigLayerIdentifier, ModelLayerIdentifier)
  {
    assert 'm' in ModelLayerIdentifier && 'm' !in ActorIdentifier && 'm' !in RigLayerIdentifier;
    WitnessNotContained(ActorIdentifier, ModelLayerIdentifier, 'm');
    WitnessNotContained(RigLayerIdentifier, ModelLayerIdentifier, 'm');
  }

  lemma OnlyActorHasC()
    ensures !Contains(ModelLayerIdentifier, ActorIdentifier) && !Contains(RigLayerIdentifier, ActorIdentifier)
  {
    assert 'c' in ActorIdentifier && 'c' !in ModelLayerIdentifier && 'c' !in RigLayerIdentifier;
    WitnessNotContained(ModelLayerIdentifier, ActorIdentifier, 'c');
    WitnessNotContained(RigLayerIdentifier, ActorIdentifier, 'c');
  }

  lemma OnlyRigHasG()
    ensures !Contains(ActorIdentifier, RigLayerIdentifier) && !Contains(ModelLayerIdentifier, RigLayerIdentifier)
  {
    assert 'g' in RigLayerIdentifier && 'g' !in ActorIdentifier && 'g' !in ModelLayerIdentifier;
    WitnessNotContained(ActorIdentifier, RigLayerIdentifier, 'g');
    WitnessNotContained(ModelLayerIdentifier, RigLayerIdentifier, 'g');
  }

  /**
    Keys are matched by substring, not by prefix, so a model-layer key can
    still match the actor prefix when the layer's name continues the
    prefix's trailing underscore into the actor prefix.
  */
  lemma KindsMixThroughNames(n: string)
    requires n == "fbx_export_actor_"
    ensures !Contains(n, ActorIdentifier)
    ensures Contains(ModelLayerIdentifier + n, ActorIdentifier)
  {
    LongerNotContained(n, ActorIdentifier);
    ContainsWhole("_fbx_export_model_layer", ActorIdentifier);
    assert "_fbx_export_model_layer" + ActorIdentifier == ModelLayerIdentifier + n;
  }

  // ---------------------------------------------------------------------
  // Records

  /** The eight per-asset export switches shared by layers, models and export options. */
  datatype Flags = Flags(
    smoothingGroups: Flag,
    hardEdges: Flag,
    tangents: Flag,
    smoothMesh: Flag,
    animationOnly: Flag,
    instances: Flag,
    zero: Flag,
    triangulate: Flag)

  /** Smoothing groups and tangents on, every other switch off. */
  predicate IsDefault(f: Flags) {
    f.smoothingGroups.truth && f.tangents.truth &&
    !f.hardEdges.truth && !f.smoothMesh.truth && !f.animationOnly.truth &&
    !f.instances.truth && !f.zero.truth && !f.triangulate.truth
  }

  const DefaultFlags := Flags(Literal(true), Literal(false), Literal(true), Literal(false),
                              Literal(false), Literal(false), Literal(false), Literal(false))

  /** The settings every export uses (`GlobalExportOptions`). */
  datatype GlobalExportOptions = GlobalExportOptions(
    inputConnections: bool,
    inAscii: bool,
    convertUnitString: string,
    scaleFactor: int,
    embeddedTextures: bool)

  /** The per-export settings (`ExportOptions`); the override fields start as None. */
  datatype ExportOptions = ExportOptions(overridePath: Option<Flag>, overrideOptions: Option<Flag>, flags: Flags)

  /**
    One animation of an actor (`AnimationData`). `name` is the attribute the
    reader adds: the name of the actor the animation belongs to.
  */
  datatype AnimationData = AnimationData(
    actorName: Text,
    animName: Text,
    startFrame: Text,
    endFrame: Text,
    path: Text,
    overridePath: Text,
    rigName: Text,
    framerate: Text,
    mutedLayers: Text,
    exportVersion: Text,
    name: Text)

  /** An actor and its animations (`ActorLayerData`). */
  datatype ActorLayerData = ActorLayerData(
    name: Text,
    exportItems: seq<Text>,
    path: Text,
    animations: seq<AnimationData>,
    exportVersion: Text,
    uuid: Text,
    root: Text)

  /** One skinned model of a rig (`RigModelData`). */
  datatype RigModelData = RigModelData(
    name: Text,
    path: Text,
    exportVersion: Text,
    exportItems: seq<string>,
    uuid: Text,
    influences: Text)

  /** A rig and its models (`RigLayerData`). */
  datatype RigLayerData = RigLayerData(
    name: Text,
    modelName: Text,
    root: Text,
    animationPath: Text,
    rigPath: Text,
    exportVersion: Text,
    models: seq<RigModelData>,
    exportItems: seq<string>,
    uuid: Text)

  /** One exportable model of a model layer (`ModelData`). */
  datatype ModelData = ModelData(
    name: Text,
    exportItems: seq<string>,
    path: Text,
    exportVersion: Text,
    uuid: Text,
    color: Text,
    overrideLayerPath: Flag,
    overrideLayerOptions: Flag,
    flags: Flags)

  /** A model layer and its models (`LayerData`). */
  datatype LayerData = LayerData(
    name: Text,
    path: Text,
    layerType: Text,
    models: seq<ModelData>,
    color: Text,
    overridePath: Flag,
    overrideOptions: Flag,
    flags: Flags)

  /** The tool's own switches (`UserOptionsData`). */
  datatype UserOptionsData = UserOptionsData(saveToDisk: bool, autoSelectInScene: bool, activeTab: bool)

  // ---------------------------------------------------------------------
  // Fresh records

  function NewGlobalExportOptions(): (g: GlobalExportOptions)
    ensures !g.inputConnections && g.inAscii && !g.embeddedTextures
    ensures g.convertUnitString == "cm" && g.scaleFactor == 1
  {
    GlobalExportOptions(false, true, "cm", 1, false)
  }

  function NewExportOptions(): (o: ExportOptions)
    ensures o.overridePath.None? && o.overrideOptions.None?
    ensures IsDefault(o.flags)
  {
    ExportOptions(None, None, DefaultFlags)
  }

  function NewAnimationData(): (a: AnimationData)
    ensures a.animName.None? && a.startFrame.None? && a.endFrame.None? && a.path.None?
    ensures a.overridePath.None? && a.mutedLayers.None? && a.name.None?
    ensures a.actorName.None? && a.rigName.None? && a.framerate.None? && a.exportVersion.None?
  {
    AnimationData(None, None, None, None, None, None, None, None, None, None, None)
  }

  function NewActorLayerData(): (c: ActorLayerData)
    ensures c.name.None? && c.exportItems == [] && c.animations == []
  {
    ActorLayerData(None, [], None, [], None, None, None)
  }

  function NewRigModelData(): (m: RigModelData)
    ensures m.name.None? && m.exportItems == [] && m.influences.None?
  {
    RigModelData(None, None, None, [], None, None)
  }

  function NewRigLayerData(): (r: RigLayerData)
    ensures r.name.None? && r.models == [] && r.exportItems == []
  {
    RigLayerData(None, None, None, None, None, None, [], [], None)
  }

  function NewModelData(): (m: ModelData)
    ensures m.name.None? && m.exportItems == []
    ensures !m.overrideLayerPath.truth && !m.overrideLayerOptions.truth
    ensures IsDefault(m.flags)
  {
    ModelData(None, [], None, None, None, None, Literal(false), Literal(false), DefaultFlags)
  }

  function NewLayerData(): (l: LayerData)
    ensures l.name.None? && l.models == []
    ensures !l.overridePath.truth && !l.overrideOptions.truth
    ensures IsDefault(l.flags)
  {
    LayerData(None, None, None, [], None, Literal(false), Literal(false), DefaultFlags)
  }

  function NewUserOptionsData(): (u: UserOptionsData)
    ensures !u.saveToDisk && !u.autoSelectInScene && u.activeTab
  {
    UserOptionsData(false, false, true)
  }

  /** Fresh layers, models and export options start from one and the same set of switches. */
  lemma FreshRecordsShareFlags()
    ensures NewLayerData().flags == NewModelData().flags == NewExportOptions().flags
  {
  }
}
