/**
  The framework's path table (`ccfw_project_data/__init__.py`). The tool
  root, which the source derives from the module's own location on disk, is
  a parameter; the environment is a map from variable names to values.
*/
module ProjectData {
  import opened Wrappers
  import opened PyCore

  /** The environment variable that names the game project's directory. */
  const ProjectVariable := "GameProjectPath"

  /** The thirteen names of the path table. */
  datatype PathName =
    | ToolRootPath | ProjectPath | XmlPath | JsonPath | IconPath | ScrPath | FrameworkPath
    | LibsPath | SitePackagesPath | PluginsPath | ExamplesPath | ToolPath | UnittestPath

  /** The dictionary key `set_paths` stores each path under. */
  function KeyText(k: PathName): string {
    match k
    case ToolRootPath => "tool_root_path"
    case ProjectPath => "project_path"
    case XmlPath => "xml_path"
    case JsonPath => "json_path"
    case IconPath => "icon_path"
    case ScrPath => "scr_path"
    case FrameworkPath => "framework_path"
    case LibsPath => "libs_path"
    case SitePackagesPath => "site-packages_path"
    case PluginsPath => "plugins_path"
    case ExamplesPath => "examples_path"
    case ToolPath => "tool_path"
    case UnittestPath => "unittest_path"
  }

  const AllPaths: set<PathName> := {
    ToolRootPath, ProjectPath, XmlPath, JsonPath, IconPath, ScrPath, FrameworkPath,
    LibsPath, SitePackagesPath, PluginsPath, ExamplesPath, ToolPath, UnittestPath}

  /** The paths `set_paths` builds below the tool root's `scr` directory. */
  const ScrPaths: set<PathName> := {FrameworkPath, LibsPath, PluginsPath, ExamplesPath, ToolPath, UnittestPath}

  /** The paths built from the project path. */
  const ProjectPaths: set<PathName> := {ProjectPath, XmlPath, JsonPath}

  /**
    `get_project_path()`: the project variable's value when it is set to a
    non-empty string, and None otherwise (an unset variable or an empty one).
  */
  function GetProjectPath(env: map<string, string>): (r: Option<string>)
    ensures r.Some? <==> ProjectVariable in env && env[ProjectVariable] != ""
    ensures r.Some? ==> r.value == env[ProjectVariable] && r.value != ""
  {
    if ProjectVariable in env && env[ProjectVariable] != "" then Some(env[ProjectVariable]) else None
  }

  /**
    `set_paths(relative_json_path, relative_project_xml_path,
    relative_sitepackages_path)`: the path table for a tool root and a
    project path. With no project path, `None + '\\'` raises TypeError.
    The table has exactly the thirteen names; the project and tool root
    entries end in a backslash; the XML and JSON paths are the project path
    followed directly by their relative paths.
  */
  function SetPaths(relJson: string, relXml: string, relSite: string, toolRoot: string, project: Option<string>)
      : (r: Result<map<PathName, string>, Fault>)
    ensures r.Err? <==> project.None?
    ensures r.Err? ==> r.error == TypeError
    ensures r.Ok? ==> r.value.Keys == AllPaths
    ensures r.Ok? ==> r.value[ToolRootPath] == toolRoot + "\\" && r.value[ProjectPath] == project.value + "\\"
    ensures r.Ok? ==> r.value[XmlPath] == project.value + relXml && r.value[JsonPath] == project.value + relJson
    ensures r.Ok? ==> r.value[SitePackagesPath] == r.value[LibsPath] + relSite
  {
    if project.None? then Err(TypeError)
    else Ok(map k | k in AllPaths :: PathOf(k, relJson, relXml, relSite, toolRoot, project.value))
  }

  /** The tool root's `scr` directory, with a closing backslash. */
  function ScrDir(toolRoot: string): string {
    toolRoot + "\\scr\\"
  }

  /** The path `set_paths` stores under one name, for a project path that is given. */
  function PathOf(k: PathName, relJson: string, relXml: string, relSite: string, toolRoot: string, project: string)
      : string
  {
    match k
    case ToolRootPath => toolRoot + "\\"
    case ProjectPath => project + "\\"
    case XmlPath => project + relXml
    case JsonPath => project + relJson
    case IconPath => toolRoot + "\\icons\\"
    case ScrPath => ScrDir(toolRoot)
    case FrameworkPath => ScrDir(toolRoot) + "framework\\"
    case LibsPath => ScrDir(toolRoot) + "libs\\"
    case SitePackagesPath => ScrDir(toolRoot) + "libs\\" + relSite
    case PluginsPath => ScrDir(toolRoot) + "plugins\\"
    case ExamplesPath => ScrDir(toolRoot) + "examples\\"
    case ToolPath => ScrDir(toolRoot) + "tools\\"
    case UnittestPath => ScrDir(toolRoot) + "tests\\"
  }

  /** The thirteen names are distinct keys, so the table has thirteen entries. */
  lemma PathTableSize(relJson: string, relXml: string, relSite: string, toolRoot: string, project: Option<string>)
    requires project.Some?
    ensures |SetPaths(relJson, relXml, relSite, toolRoot, project).value| == 13
  {
    assert |AllPaths| == 13;
  }

  /** No two names share a dictionary key, so `set_paths` assigns thirteen distinct keys. */
  lemma KeyTextInjective(a: PathName, b: PathName)
    ensures KeyText(a) == KeyText(b) ==> a == b
  {
  }

  /** The dictionary `set_paths` builds, keyed by the strings it assigns. */
  function KeyedPaths(t: map<PathName, string>): (d: map<string, string>)
    ensures d.Keys == set k | k in t :: KeyText(k)
    ensures forall k :: k in t ==> KeyText(k) in d && d[KeyText(k)] == t[k]
  {
    map k | k in t :: KeyText(k) := t[k]
  }

  /** The string-keyed table has thirteen entries: each key is assigned once. */
  lemma KeyedTableSize(relJson: string, relXml: string, relSite: string, toolRoot: string, project: Option<string>)
    requires project.Some?
    ensures |KeyedPaths(SetPaths(relJson, relXml, relSite, toolRoot, project).value)| == 13
  {
    var t := SetPaths(relJson, relXml, relSite, toolRoot, project).value;
    var d := KeyedPaths(t);
    PathTableSize(relJson, relXml, relSite, toolRoot, project);
    KeysMappedOnce(t.Keys);
    assert d.Keys == set k | k in t.Keys :: KeyText(k);
  }

  /** An injective image of a set has the set's size. */
  lemma {:induction false} KeysMappedOnce(s: set<PathName>)
    ensures |set k | k in s :: KeyText(k)| == |s|
    decreases |s|
  {
    if s != {} {
      var x :| x in s;
      var rest := s - {x};
      KeysMappedOnce(rest);
      forall y | y in rest ensures KeyText(y) != KeyText(x) {
        KeyTextInjective(x, y);
      }
      assert (set k | k in s :: KeyText(k)) == (set k | k in rest :: KeyText(k)) + {KeyText(x)};
    }
  }

  /** A string is a prefix of itself followed by anything, and a proper one when something follows. */
  lemma PrefixOfConcat(a: string, b: string)
    ensures a <= a + b
    ensures b != "" ==> a < a + b
  {
    assert (a + b)[..|a|] == a;
  }

  lemma ScrPathOf(k: PathName, relJson: string, relXml: string, relSite: string, toolRoot: string, project: string)
    requires k in ScrPaths
    ensures ScrDir(toolRoot) < PathOf(k, relJson, relXml, relSite, toolRoot, project)
  {
    var scr := ScrDir(toolRoot);
    match k
    case FrameworkPath => PrefixOfConcat(scr, "framework\\");
    case LibsPath => PrefixOfConcat(scr, "libs\\");
    case PluginsPath => PrefixOfConcat(scr, "plugins\\");
    case ExamplesPath => PrefixOfConcat(scr, "examples\\");
    case ToolPath => PrefixOfConcat(scr, "tools\\");
    case UnittestPath => PrefixOfConcat(scr, "tests\\");
  }

  lemma RootOfPath(k: PathName, relJson: string, relXml: string, relSite: string, toolRoot: string, project: string)
    ensures var path := PathOf(k, relJson, relXml, relSite, toolRoot, project);
      if k in ProjectPaths then project <= path else toolRoot <= path
  {
    var scr := ScrDir(toolRoot);
    PrefixOfConcat(toolRoot, "\\scr\\");
    match k
    case ToolRootPath => PrefixOfConcat(toolRoot, "\\");
    case ProjectPath => PrefixOfConcat(project, "\\");
    case XmlPath => PrefixOfConcat(project, relXml);
    case JsonPath => PrefixOfConcat(project, relJson);
    case IconPath => PrefixOfConcat(toolRoot, "\\icons\\");
    case ScrPath =>
    case SitePackagesPath =>
      PrefixOfConcat(scr, "libs\\" + relSite);
      assert scr + "libs\\" + relSite == scr + ("libs\\" + relSite);
    case _ => ScrPathOf(k, relJson, relXml, relSite, toolRoot, project);
  }

  /** `scr_path` is a proper prefix of the six paths below it. */
  lemma ScrPathPrefix(relJson: string, relXml: string, relSite: string, toolRoot: string, project: Option<string>)
    requires project.Some?
    ensures var t := SetPaths(relJson, relXml, relSite, toolRoot, project).value;
      forall k | k in ScrPaths :: t[ScrPath] < t[k]
  {
    forall k | k in ScrPaths {
      ScrPathOf(k, relJson, relXml, relSite, toolRoot, project.value);
    }
  }

  /** The project's three paths start at the project path; every other path starts at the tool root. */
  lemma PathRoots(relJson: string, relXml: string, relSite: string, toolRoot: string, project: Option<string>)
    requires project.Some?
    ensures var t := SetPaths(relJson, relXml, relSite, toolRoot, project).value;
      forall k | k in t :: if k in ProjectPaths then project.value <= t[k] else toolRoot <= t[k]
  {
    forall k | k in AllPaths {
      RootOfPath(k, relJson, relXml, relSite, toolRoot, project.value);
    }
  }
}
