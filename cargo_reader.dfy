/**
 * The reader for Rust's `Cargo.toml`: the package name, and the
 * `[dependencies]` and `[dev-dependencies]` tables as production and
 * development dependencies. The parsed TOML document is an input; reading
 * and decoding the file is not modelled.
 */
module CargoReader {
  import opened Wrappers
  import opened PyStr
  import Json
  import Dict
  import Data
  import opened DepSections

  const SourceName := "Cargo.toml"

  /**
   * `_extract_version`: a string is the version itself; a table gives
   * `str()` of its `version` entry when that is truthy; anything else
   * accepts any version.
   */
  function ExtractVersion(spec: Json.Value): (r: string)
    ensures spec.Str? ==> r == spec.s
    ensures spec.Obj? && Json.Get(spec, "version").Some? && Json.Get(spec, "version").value.Str? && Json.Get(spec, "version").value.s != []
      ==> r == Json.Get(spec, "version").value.s
    ensures !spec.Str? && !spec.Obj? ==> r == "*"
    ensures spec.Obj? && (Json.Get(spec, "version").None? || !Json.Truthy(Json.Get(spec, "version").value)) ==> r == "*"
  {
    if spec.Str? then spec.s
    else if spec.Obj? then
      var v := Json.Get(spec, "version");
      if v.Some? && Json.Truthy(v.value) then Json.ToStr(v.value) else "*"
    else "*"
  }

  /** The name from the `[package]` table, when that is a table and the name is truthy. */
  function PackageName(root: Json.Value): (r: Option<string>)
    ensures r.Some? ==> SectionOf(root, "package").Some?
    ensures r.Some? <==> SectionOf(root, "package").Some? && Dict.Get(SectionOf(root, "package").value, "name").Some?
                         && Json.Truthy(Dict.Get(SectionOf(root, "package").value, "name").value)
  {
    var package := SectionOf(root, "package");
    if package.Some? then
      var name := Dict.Get(package.value, "name");
      if name.Some? && Json.Truthy(name.value) then Some(Json.ToStr(name.value)) else None
    else None
  }

  function ProdDeps(root: Json.Value): seq<Data.Dependency> {
    DepsOfSection(root, "dependencies", "prod", SourceName, ExtractVersion)
  }

  function DevDeps(root: Json.Value): seq<Data.Dependency> {
    DepsOfSection(root, "dev-dependencies", "dev", SourceName, ExtractVersion)
  }

  /** The `sources` list after both helpers ran on an empty one. */
  function CargoSources(root: Json.Value): seq<string> {
    var afterProd := if SectionOf(root, "dependencies").Some? then [SourceName] else [];
    if SectionOf(root, "dev-dependencies").Some? then AddSource(afterProd, SourceName) else afterProd
  }

  /** `read_project_info`, as a value of the parsed document. */
  function CargoInfo(root: Json.Value, fileName: string): Data.ProjectFileInfo {
    if !root.Obj? then Data.ProjectFileInfo(None, None, [])
    else
      Data.ProjectFileInfo(PackageName(root), CollectedInfo(ProdDeps(root) + DevDeps(root), CargoSources(root)), [fileName])
  }

  /**
   * A root that is not a table gives nothing. Otherwise the file is the
   * only source file; dependency details are present exactly when one of
   * the two tables has an entry, and then `Cargo.toml` is the one source,
   * production entries come first, the production and development counts
   * are the sizes of the two tables, there are no optional ones and the
   * total is their sum.
   */
  lemma CargoInfoSpec(root: Json.Value, fileName: string)
    ensures var info := CargoInfo(root, fileName);
      (!root.Obj? ==> info == Data.ProjectFileInfo(None, None, []))
      && (root.Obj? ==>
            info.name == PackageName(root) && info.sourceFiles == [fileName]
            && (info.dependencies.None? <==> ProdDeps(root) == [] && DevDeps(root) == [])
            && (info.dependencies.Some? ==>
                  var di := info.dependencies.value;
                  di.dependencies == ProdDeps(root) + DevDeps(root)
                  && di.sources == [SourceName] && di.conflicts == []
                  && di.prodCount == |ProdDeps(root)| && di.devCount == |DevDeps(root)| && di.optionalCount == 0
                  && di.totalCount == di.prodCount + di.devCount))
  {
    var prod, dev := ProdDeps(root), DevDeps(root);
    DepsOfSectionCounts(root, "dependencies", "prod", "dev", SourceName, ExtractVersion);
    DepsOfSectionCounts(root, "dependencies", "prod", "optional", SourceName, ExtractVersion);
    DepsOfSectionCounts(root, "dev-dependencies", "dev", "prod", SourceName, ExtractVersion);
    DepsOfSectionCounts(root, "dev-dependencies", "dev", "optional", SourceName, ExtractVersion);
    Data.CountCategoryAppend(prod, dev, "prod");
    Data.CountCategoryAppend(prod, dev, "dev");
    Data.CountCategoryAppend(prod, dev, "optional");
  }

  /** `"Cargo.toml"` is listed once when either table is present, and never otherwise. */
  lemma CargoSourcesOnce(root: Json.Value)
    ensures CargoSources(root) == if SectionOf(root, "dependencies").Some? || SectionOf(root, "dev-dependencies").Some? then [SourceName] else []
  {
  }

  /** Every dependency read is named by a table key, lower-cased, and comes from `Cargo.toml`. */
  lemma CargoDepsFromKeys(root: Json.Value, i: nat)
    requires root.Obj? && i < |ProdDeps(root) + DevDeps(root)|
    ensures var d := (ProdDeps(root) + DevDeps(root))[i];
      d.sourceFile == SourceName
      && (i < |ProdDeps(root)| ==>
            var t := SectionOf(root, "dependencies").value;
            d.category == "prod" && d.name == Lower(t[i].0) && d.version == ExtractVersion(t[i].1))
      && (i >= |ProdDeps(root)| ==>
            var t := SectionOf(root, "dev-dependencies").value;
            d.category == "dev" && d.name == Lower(t[i - |ProdDeps(root)|].0) && d.version == ExtractVersion(t[i - |ProdDeps(root)|].1))
  {
    if i < |ProdDeps(root)| {
      assert SectionOf(root, "dependencies").Some?;
    } else {
      assert SectionOf(root, "dev-dependencies").Some?;
    }
  }

  /** `read_project_info`, over the parsed document. */
  method ReadProjectInfo(root: Json.Value, fileName: string) returns (info: Data.ProjectFileInfo)
    ensures info == CargoInfo(root, fileName)
  {
    if !root.Obj? {
      return Data.ProjectFileInfo(None, None, []);
    }
    var name := PackageName(root);
    var lists := new Collector();
    lists.AddFirstSection(root, "dependencies", "prod", SourceName, ExtractVersion);
    assert lists.deps == ProdDeps(root);
    assert lists.sources == if SectionOf(root, "dependencies").Some? then [SourceName] else [];
    lists.AddLaterSection(root, "dev-dependencies", "dev", SourceName, ExtractVersion);
    info := Data.ProjectFileInfo(name, CollectedInfo(lists.deps, lists.sources), [fileName]);
  }
}
