/**
 * The stored form of dependencies, dependency details and project file
 * information, and the conversions back. A stored dict is a `Json.Value`
 * object; reading one back assumes each field present has the type the
 * serialiser annotates it with.
 */
module ProjectInfoSerializer {
  import opened Wrappers
  import Json
  import Dict
  import Data
  import opened Fields

  const DependencyKeys: seq<string> := ["name", "version", "category", "source_file"]

  lemma DependencyKeysDistinct()
    ensures forall i, j :: 0 <= i < j < |DependencyKeys| ==> DependencyKeys[i] != DependencyKeys[j]
  {
  }

  /** `serialize_dependency`: a dict of the four fields, each once. */
  function SerializeDependency(dep: Data.Dependency): (r: Json.Value)
    ensures r.Obj? && Dict.Keys(r.fields) == DependencyKeys && Dict.Unique(r.fields)
  {
    DependencyKeysDistinct();
    Json.Obj(Dict.Zip(DependencyKeys, [Json.Str(dep.name), Json.Str(dep.version), Json.Str(dep.category), Json.Str(dep.sourceFile)]))
  }

  /** A dict whose dependency fields, where present, are strings. */
  predicate DependencyShaped(v: Json.Value) {
    v.Obj? && StrOrAbsent(v, "name") && StrOrAbsent(v, "version")
    && StrOrAbsent(v, "category") && StrOrAbsent(v, "source_file")
  }

  /**
   * `deserialize_dependency`: each field is read with its default, an
   * empty name, any version, production, and an unknown source file.
   */
  function DeserializeDependency(v: Json.Value): (r: Data.Dependency)
    requires DependencyShaped(v)
    ensures Json.Get(v, "name").None? ==> r.name == ""
    ensures Json.Get(v, "version").None? ==> r.version == "*"
    ensures Json.Get(v, "category").None? ==> r.category == "prod"
    ensures Json.Get(v, "source_file").None? ==> r.sourceFile == "unknown"
  {
    Data.Dependency(
      StrOr(v, "name", ""),
      StrOr(v, "version", "*"),
      StrOr(v, "category", "prod"),
      StrOr(v, "source_file", "unknown"))
  }

  /** Storing a dependency and reading it back gives the same dependency. */
  lemma DependencyRoundTrip(dep: Data.Dependency)
    ensures DependencyShaped(SerializeDependency(dep))
    ensures DeserializeDependency(SerializeDependency(dep)) == dep
  {
    var vs := [Json.Str(dep.name), Json.Str(dep.version), Json.Str(dep.category), Json.Str(dep.sourceFile)];
    DependencyKeysDistinct();
    Dict.ZipGet(DependencyKeys, vs, 0);
    Dict.ZipGet(DependencyKeys, vs, 1);
    Dict.ZipGet(DependencyKeys, vs, 2);
    Dict.ZipGet(DependencyKeys, vs, 3);
  }

  /** The list comprehension over the dependencies. */
  function SerializeDependencies(deps: seq<Data.Dependency>): (r: Json.Value)
    ensures r.Arr? && |r.items| == |deps|
    ensures forall i :: 0 <= i < |deps| ==> r.items[i] == SerializeDependency(deps[i])
  {
    Json.Arr(seq(|deps|, i requires 0 <= i < |deps| => SerializeDependency(deps[i])))
  }

  predicate DependenciesShaped(v: Json.Value) {
    v.Arr? && forall i :: 0 <= i < |v.items| ==> DependencyShaped(v.items[i])
  }

  /** The list comprehension reading each stored dependency. */
  function DeserializeDependencies(v: Json.Value): (r: seq<Data.Dependency>)
    requires DependenciesShaped(v)
    ensures |r| == |v.items|
    ensures forall i :: 0 <= i < |r| ==> r[i] == DeserializeDependency(v.items[i])
  {
    seq(|v.items|, i requires 0 <= i < |v.items| => DeserializeDependency(v.items[i]))
  }

  /** Reading back a stored list of dependencies gives the same list. */
  lemma DependenciesRoundTrip(deps: seq<Data.Dependency>)
    ensures DependenciesShaped(SerializeDependencies(deps))
    ensures DeserializeDependencies(SerializeDependencies(deps)) == deps
  {
    var v := SerializeDependencies(deps);
    forall i | 0 <= i < |deps| ensures DependencyShaped(v.items[i]) && DeserializeDependency(v.items[i]) == deps[i] {
      DependencyRoundTrip(deps[i]);
    }
  }

  const DependencyInfoKeys: seq<string> :=
    ["total_count", "prod_count", "dev_count", "optional_count", "sources", "conflicts", "dependencies"]

  lemma DependencyInfoKeysDistinct()
    ensures forall i, j :: 0 <= i < j < |DependencyInfoKeys| ==> DependencyInfoKeys[i] != DependencyInfoKeys[j]
  {
  }

  function DependencyInfoValues(info: Data.DependencyInfo): seq<Json.Value> {
    [Json.Int(info.totalCount), Json.Int(info.prodCount), Json.Int(info.devCount), Json.Int(info.optionalCount),
     Strs(info.sources), Strs(info.conflicts), SerializeDependencies(info.dependencies)]
  }

  /** `serialize_dependency_info`: a dict of the seven fields, each once. */
  function SerializeDependencyInfo(info: Data.DependencyInfo): (r: Json.Value)
    ensures r.Obj? && Dict.Keys(r.fields) == DependencyInfoKeys && Dict.Unique(r.fields)
  {
    DependencyInfoKeysDistinct();
    Json.Obj(Dict.Zip(DependencyInfoKeys, DependencyInfoValues(info)))
  }

  /** A dict whose dependency-detail fields, where present, have their annotated types. */
  predicate DependencyInfoShaped(v: Json.Value) {
    v.Obj?
    && IntOrAbsent(v, "total_count") && IntOrAbsent(v, "prod_count")
    && IntOrAbsent(v, "dev_count") && IntOrAbsent(v, "optional_count")
    && StrsOrAbsent(v, "sources") && StrsOrAbsent(v, "conflicts")
    && (Json.Get(v, "dependencies").None? || DependenciesShaped(Json.Get(v, "dependencies").value))
  }

  /** `deserialize_dependency_info`: missing counts are zero and missing lists empty. */
  function DeserializeDependencyInfo(v: Json.Value): (r: Data.DependencyInfo)
    requires DependencyInfoShaped(v)
    ensures Json.Get(v, "dependencies").None? ==> r.dependencies == []
    ensures Json.Get(v, "total_count").None? ==> r.totalCount == 0
    ensures Json.Get(v, "prod_count").None? ==> r.prodCount == 0
    ensures Json.Get(v, "dev_count").None? ==> r.devCount == 0
    ensures Json.Get(v, "optional_count").None? ==> r.optionalCount == 0
    ensures Json.Get(v, "sources").None? ==> r.sources == []
    ensures Json.Get(v, "conflicts").None? ==> r.conflicts == []
  {
    var deps := Json.Get(v, "dependencies");
    Data.DependencyInfo(
      if deps.Some? then DeserializeDependencies(deps.value) else [],
      IntOr(v, "prod_count", 0),
      IntOr(v, "dev_count", 0),
      IntOr(v, "optional_count", 0),
      IntOr(v, "total_count", 0),
      StrsOr(v, "sources"),
      StrsOr(v, "conflicts"))
  }

  /** Each field of the stored dependency details holds its value. */
  lemma DependencyInfoField(info: Data.DependencyInfo, i: nat)
    requires i < |DependencyInfoKeys|
    ensures Json.Get(SerializeDependencyInfo(info), DependencyInfoKeys[i]) == Some(DependencyInfoValues(info)[i])
  {
    DependencyInfoKeysDistinct();
    Dict.ZipGet(DependencyInfoKeys, DependencyInfoValues(info), i);
  }

  /** Storing dependency details and reading them back gives the same details. */
  lemma DependencyInfoRoundTrip(info: Data.DependencyInfo)
    ensures DependencyInfoShaped(SerializeDependencyInfo(info))
    ensures DeserializeDependencyInfo(SerializeDependencyInfo(info)) == info
  {
    DependencyInfoField(info, 0);
    DependencyInfoField(info, 1);
    DependencyInfoField(info, 2);
    DependencyInfoField(info, 3);
    DependencyInfoField(info, 4);
    DependencyInfoField(info, 5);
    DependencyInfoField(info, 6);
    StrsRoundTrip(info.sources);
    StrsRoundTrip(info.conflicts);
    DependenciesRoundTrip(info.dependencies);
  }

  /** The stored form of dependency details is never an empty dict, so it is always truthy. */
  lemma DependencyInfoTruthy(info: Data.DependencyInfo)
    ensures Json.Truthy(SerializeDependencyInfo(info))
  {
  }

  const ProjectFileInfoKeys: seq<string> := ["name", "source_files", "dependencies"]

  function ProjectFileInfoValues(info: Data.ProjectFileInfo): seq<Json.Value> {
    [OptStrValue(info.name),
     Strs(info.sourceFiles),
     if info.dependencies.Some? then SerializeDependencyInfo(info.dependencies.value) else Json.Null]
  }

  /**
   * `serialize_project_file_info`: the name or `None`, the source files,
   * and the dependency details or `None`. A `DependencyInfo` instance is
   * always truthy, so details that are present are always stored.
   */
  function SerializeProjectFileInfo(info: Data.ProjectFileInfo): (r: Json.Value)
    ensures r.Obj? && Dict.Keys(r.fields) == ProjectFileInfoKeys && Dict.Unique(r.fields)
  {
    Json.Obj(Dict.Zip(ProjectFileInfoKeys, ProjectFileInfoValues(info)))
  }

  /**
   * A dict whose fields, where present, have their annotated types; a
   * falsy `dependencies` value (such as `{}`) is never read.
   */
  predicate ProjectFileInfoShaped(v: Json.Value) {
    var deps := Json.Get(v, "dependencies");
    v.Obj? && OptStrField(v, "name") && StrsOrAbsent(v, "source_files")
    && (deps.None? || !Json.Truthy(deps.value) || DependencyInfoShaped(deps.value))
  }

  /**
   * `deserialize_project_file_info`: dependency details are read only from
   * a truthy `dependencies` value; a missing or `None` name is no name.
   */
  function DeserializeProjectFileInfo(v: Json.Value): (r: Data.ProjectFileInfo)
    requires ProjectFileInfoShaped(v)
    ensures r.dependencies.Some? <==> Json.Get(v, "dependencies").Some? && Json.Truthy(Json.Get(v, "dependencies").value)
    ensures r.dependencies.Some? ==> r.dependencies.value == DeserializeDependencyInfo(Json.Get(v, "dependencies").value)
    ensures r.name.None? <==> Json.Get(v, "name").None? || Json.Get(v, "name").value.Null?
    ensures Json.Get(v, "source_files").None? ==> r.sourceFiles == []
  {
    var depData := Json.Get(v, "dependencies");
    Data.ProjectFileInfo(
      OptStr(v, "name"),
      if depData.Some? && Json.Truthy(depData.value) then Some(DeserializeDependencyInfo(depData.value)) else None,
      StrsOr(v, "source_files"))
  }

  /** Storing project file information and reading it back gives the same information. */
  lemma ProjectFileInfoRoundTrip(info: Data.ProjectFileInfo)
    ensures ProjectFileInfoShaped(SerializeProjectFileInfo(info))
    ensures DeserializeProjectFileInfo(SerializeProjectFileInfo(info)) == info
  {
    var v := SerializeProjectFileInfo(info);
    var vs := ProjectFileInfoValues(info);
    assert Json.Get(v, "name") == Some(OptStrValue(info.name)) by {
      Dict.ZipGet(ProjectFileInfoKeys, vs, 0);
    }
    assert Json.Get(v, "source_files") == Some(Strs(info.sourceFiles)) by {
      Dict.ZipGet(ProjectFileInfoKeys, vs, 1);
    }
    assert Json.Get(v, "dependencies") == Some(vs[2]) by {
      Dict.ZipGet(ProjectFileInfoKeys, vs, 2);
    }
    StrsRoundTrip(info.sourceFiles);
    if info.dependencies.Some? {
      DependencyInfoRoundTrip(info.dependencies.value);
      DependencyInfoTruthy(info.dependencies.value);
    }
    var r := DeserializeProjectFileInfo(v);
    assert r.name == info.name;
    assert r.dependencies == info.dependencies;
  }

  /** An empty `dependencies` dict reads back as no dependency details, not as empty ones. */
  lemma EmptyDependenciesDropped(name: Json.Value)
    requires name.Null? || name.Str?
    ensures var v := Json.Obj([("name", name), ("dependencies", Json.Obj([]))]);
      ProjectFileInfoShaped(v) && DeserializeProjectFileInfo(v).dependencies.None?
  {
    var v := Json.Obj([("name", name), ("dependencies", Json.Obj([]))]);
    Dict.GetFirst(v.fields, 0, "name");
    Dict.GetFirst(v.fields, 1, "dependencies");
    Dict.GetNone(v.fields, "source_files");
  }
}
