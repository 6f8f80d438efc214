/**
 * The reader for npm's `package.json`: the package name, and the
 * `dependencies`, `devDependencies` and `optionalDependencies` objects as
 * production, development and optional dependencies. The parsed JSON
 * document is an input; reading and decoding the file is not modelled.
 */
module PackageJsonReader {
  import opened Wrappers
  import opened PyStr
  import Json
  import Data
  import opened DepSections

  const SourceName := "package.json"

  /** `str(name)` of the top-level `name` when it is truthy. */
  function PackageName(root: Json.Value): (r: Option<string>)
    ensures r.Some? <==> Json.Get(root, "name").Some? && Json.Truthy(Json.Get(root, "name").value)
    ensures r.Some? && Json.Get(root, "name").value.Str? ==> r.value == Json.Get(root, "name").value.s
  {
    var name := Json.Get(root, "name");
    if name.Some? && Json.Truthy(name.value) then Some(Json.ToStr(name.value)) else None
  }

  function ProdDeps(root: Json.Value): seq<Data.Dependency> {
    DepsOfSection(root, "dependencies", "prod", SourceName, Json.ToStr)
  }

  function DevDeps(root: Json.Value): seq<Data.Dependency> {
    DepsOfSection(root, "devDependencies", "dev", SourceName, Json.ToStr)
  }

  function OptionalDeps(root: Json.Value): seq<Data.Dependency> {
    DepsOfSection(root, "optionalDependencies", "optional", SourceName, Json.ToStr)
  }

  /** The `sources` list after the three helpers ran on an empty one. */
  function PackageSources(root: Json.Value): seq<string> {
    var afterProd := if SectionOf(root, "dependencies").Some? then [SourceName] else [];
    var afterDev := if SectionOf(root, "devDependencies").Some? then AddSource(afterProd, SourceName) else afterProd;
    if SectionOf(root, "optionalDependencies").Some? then AddSource(afterDev, SourceName) else afterDev
  }

  /** `read_project_info`, as a value of the parsed document. */
  function PackageInfo(root: Json.Value, fileName: string): Data.ProjectFileInfo {
    if !root.Obj? then Data.ProjectFileInfo(None, None, [])
    else
      Data.ProjectFileInfo(
        PackageName(root),
        CollectedInfo(ProdDeps(root) + DevDeps(root) + OptionalDeps(root), PackageSources(root)),
        [fileName])
  }

  /** `"package.json"` is listed once when any of the three objects is present, and never otherwise. */
  lemma PackageSourcesOnce(root: Json.Value)
    ensures PackageSources(root)
         == if SectionOf(root, "dependencies").Some? || SectionOf(root, "devDependencies").Some? || SectionOf(root, "optionalDependencies").Some?
            then [SourceName] else []
  {
  }

  /**
   * A root that is not an object gives nothing. Otherwise the file is the
   * only source file; dependency details are present exactly when one of
   * the three objects has an entry, and then `package.json` is the one
   * source, each count is the size of its object and the total is their sum.
   */
  lemma PackageInfoSpec(root: Json.Value, fileName: string)
    ensures var info := PackageInfo(root, fileName);
      (!root.Obj? ==> info == Data.ProjectFileInfo(None, None, []))
      && (root.Obj? ==>
            info.name == PackageName(root) && info.sourceFiles == [fileName]
            && (info.dependencies.None? <==> ProdDeps(root) == [] && DevDeps(root) == [] && OptionalDeps(root) == [])
            && (info.dependencies.Some? ==>
                  var di := info.dependencies.value;
                  di.dependencies == ProdDeps(root) + DevDeps(root) + OptionalDeps(root)
                  && di.sources == [SourceName] && di.conflicts == []
                  && di.prodCount == |ProdDeps(root)| && di.devCount == |DevDeps(root)|
                  && di.optionalCount == |OptionalDeps(root)|
                  && di.totalCount == di.prodCount + di.devCount + di.optionalCount))
  {
    var prod, dev, opt := ProdDeps(root), DevDeps(root), OptionalDeps(root);
    DepsOfSectionCounts(root, "dependencies", "prod", "dev", SourceName, Json.ToStr);
    DepsOfSectionCounts(root, "dependencies", "prod", "optional", SourceName, Json.ToStr);
    DepsOfSectionCounts(root, "devDependencies", "dev", "prod", SourceName, Json.ToStr);
    DepsOfSectionCounts(root, "devDependencies", "dev", "optional", SourceName, Json.ToStr);
    DepsOfSectionCounts(root, "optionalDependencies", "optional", "prod", SourceName, Json.ToStr);
    DepsOfSectionCounts(root, "optionalDependencies", "optional", "dev", SourceName, Json.ToStr);
    Data.CountCategoryAppend(prod, dev, "prod");
    Data.CountCategoryAppend(prod, dev, "dev");
    Data.CountCategoryAppend(prod, dev, "optional");
    Data.CountCategoryAppend(prod + dev, opt, "prod");
    Data.CountCategoryAppend(prod + dev, opt, "dev");
    Data.CountCategoryAppend(prod + dev, opt, "optional");
  }

  /** A dependency's version is `str()` of its value, so a string version is kept as written. */
  lemma PackageVersions(root: Json.Value, i: nat)
    requires SectionOf(root, "dependencies").Some? && i < |SectionOf(root, "dependencies").value|
    ensures var e := SectionOf(root, "dependencies").value[i];
      ProdDeps(root)[i] == Data.Dependency(Lower(e.0), Json.ToStr(e.1), "prod", SourceName)
      && (e.1.Str? ==> ProdDeps(root)[i].version == e.1.s)
  {
  }

  /** `read_project_info`, over the parsed document. */
  method ReadProjectInfo(root: Json.Value, fileName: string) returns (info: Data.ProjectFileInfo)
    ensures info == PackageInfo(root, fileName)
  {
    if !root.Obj? {
      return Data.ProjectFileInfo(None, None, []);
    }
    var name := PackageName(root);
    var lists := new Collector();
    lists.AddFirstSection(root, "dependencies", "prod", SourceName, Json.ToStr);
    assert lists.deps == ProdDeps(root);
    assert lists.sources == if SectionOf(root, "dependencies").Some? then [SourceName] else [];
    lists.AddLaterSection(root, "devDependencies", "dev", SourceName, Json.ToStr);
    lists.AddLaterSection(root, "optionalDependencies", "optional", SourceName, Json.ToStr);
    info := Data.ProjectFileInfo(name, CollectedInfo(lists.deps, lists.sources), [fileName]);
  }
}
