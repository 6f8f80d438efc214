/**
 * The project-name readers used to label an analysis: each reads only a
 * name from its manifest. The pyproject one is more lenient than the
 * dependency reader: it falls back to the literal `"[project]"` table
 * whenever the standard table gives no name.
 */
module ProjectNameReaders {
  import opened Wrappers
  import Json
  import Dict
  import PyPath
  import DepSections
  import PyProjectReader
  import CargoReader
  import PackageJsonReader
  import ReaderFactory

  /** The three name readers. */
  datatype NameReader = PyProjectNames | PackageJsonNames | CargoNames

  /** `str(name)` of the `name` entry of the table under `key`, when that is a table and the name is truthy. */
  function TableName(root: Json.Value, key: string): (r: Option<string>)
    ensures r.Some? ==> DepSections.SectionOf(root, key).Some?
  {
    var t := DepSections.SectionOf(root, key);
    if t.Some? then
      var name := Dict.Get(t.value, "name");
      if name.Some? && Json.Truthy(name.value) then Some(Json.ToStr(name.value)) else None
    else None
  }

  /** `PyProjectReader.read_project_name`: the `project` table's name, else the `"[project]"` table's name. */
  function PyProjectName(root: Json.Value): (r: Option<string>)
    ensures !root.Obj? ==> r.None?
  {
    if !root.Obj? then None
    else if TableName(root, "project").Some? then TableName(root, "project")
    else TableName(root, "[project]")
  }

  /** `PackageJsonReader.read_project_name`. */
  function PackageJsonName(root: Json.Value): (r: Option<string>)
    ensures !root.Obj? ==> r.None?
  {
    if !root.Obj? then None
    else
      var name := Json.Get(root, "name");
      if name.Some? && Json.Truthy(name.value) then Some(Json.ToStr(name.value)) else None
  }

  /** `CargoTomlReader.read_project_name`. */
  function CargoName(root: Json.Value): (r: Option<string>)
    ensures !root.Obj? ==> r.None?
  {
    if !root.Obj? then None else TableName(root, "package")
  }

  /** The name the chosen reader reads. */
  function ReadProjectName(reader: NameReader, root: Json.Value): Option<string> {
    match reader
    case PyProjectNames => PyProjectName(root)
    case PackageJsonNames => PackageJsonName(root)
    case CargoNames => CargoName(root)
  }

  /** `get_reader_for_file`: only three names are known here. */
  function NameReaderFor(file: PyPath.Path): (r: Option<NameReader>)
    ensures r.Some? <==> PyPath.Name(file) in {"pyproject.toml", "package.json", "Cargo.toml"}
  {
    var name := PyPath.Name(file);
    if name == "pyproject.toml" then Some(PyProjectNames)
    else if name == "package.json" then Some(PackageJsonNames)
    else if name == "Cargo.toml" then Some(CargoNames)
    else None
  }

  /** Every file with a name reader also has a dependency reader, but `requirements.txt` has only the latter. */
  lemma NameReaderImpliesReader(file: PyPath.Path)
    ensures NameReaderFor(file).Some? ==> ReaderFactory.ReaderFor(file).Some?
    ensures PyPath.Name(file) == "requirements.txt" ==>
      NameReaderFor(file).None? && ReaderFactory.ReaderFor(file) == Some(ReaderFactory.Requirements)
  {
  }

  /** The package.json name reader agrees with the dependency reader's name. */
  lemma PackageJsonNameAgrees(root: Json.Value)
    ensures PackageJsonName(root) == PackageJsonReader.PackageName(root)
  {
  }

  /** The Cargo name reader agrees with the dependency reader's name. */
  lemma CargoNameAgrees(root: Json.Value)
    ensures CargoName(root) == CargoReader.PackageName(root)
  {
  }

  /**
   * The pyproject name reader agrees with the dependency reader whenever
   * the `project` table names the project, and falls back to `"[project]"`
   * when it does not.
   */
  lemma PyProjectNameAgrees(root: Json.Value)
    requires root.Obj?
    ensures TableName(root, "project").Some? ==>
      PyProjectName(root) == TableName(root, "project")
      && PyProjectReader.ProjectSection(root).Some?
      && PyProjectReader.ProjectName(PyProjectReader.ProjectSection(root).value) == PyProjectName(root)
    ensures TableName(root, "project").None? ==> PyProjectName(root) == TableName(root, "[project]")
  {
  }

  /**
   * The two pyproject readers disagree on a file whose `project` table has
   * no name while a `"[project]"` table has one: the name reader returns it,
   * the dependency reader reports no name.
   */
  lemma PyProjectNamesDiverge()
    ensures var root := Json.Obj([("project", Json.Obj([])), ("[project]", Json.Obj([("name", Json.Str("demo"))]))]);
      PyProjectName(root) == Some("demo")
      && PyProjectReader.ProjectSection(root).Some?
      && PyProjectReader.ProjectName(PyProjectReader.ProjectSection(root).value).None?
  {
    var root := Json.Obj([("project", Json.Obj([])), ("[project]", Json.Obj([("name", Json.Str("demo"))]))]);
    assert Json.Get(root, "project") == Some(Json.Obj([]));
    assert "[project]" != "project";
    assert Json.Get(root, "[project]") == Some(Json.Obj([("name", Json.Str("demo"))]));
  }
}
