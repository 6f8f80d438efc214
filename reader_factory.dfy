/**
 * Choosing the dependency reader for a manifest by its file name alone:
 * exact, case-sensitive matches on the four supported names.
 */
module ReaderFactory {
  import opened Wrappers
  import PyPath

  /** The four manifest readers. */
  datatype ConfigReader = PyProject | PackageJson | Cargo | Requirements

  /** The file name each reader is chosen for. */
  function ManifestName(r: ConfigReader): string {
    match r
    case PyProject => "pyproject.toml"
    case PackageJson => "package.json"
    case Cargo => "Cargo.toml"
    case Requirements => "requirements.txt"
  }

  /** `get_reader_for_file`: dispatch on `file_path.name`. */
  function ReaderFor(file: PyPath.Path): (r: Option<ConfigReader>)
    ensures r.Some? ==> ManifestName(r.value) == PyPath.Name(file)
    ensures r.None? ==> forall c: ConfigReader :: ManifestName(c) != PyPath.Name(file)
  {
    var name := PyPath.Name(file);
    if name == "pyproject.toml" then Some(PyProject)
    else if name == "package.json" then Some(PackageJson)
    else if name == "Cargo.toml" then Some(Cargo)
    else if name == "requirements.txt" then Some(Requirements)
    else None
  }

  /** Each reader is chosen for a file carrying its name, wherever that file lives. */
  lemma ReaderForManifest(r: ConfigReader, anchor: string, dirs: seq<string>)
    ensures ReaderFor(PyPath.Path(anchor, dirs + [ManifestName(r)])) == Some(r)
  {
    var p := PyPath.Path(anchor, dirs + [ManifestName(r)]);
    assert PyPath.Name(p) == ManifestName(r);
  }

  /** Only the last component matters. */
  lemma ReaderForName(p: PyPath.Path, q: PyPath.Path)
    requires PyPath.Name(p) == PyPath.Name(q)
    ensures ReaderFor(p) == ReaderFor(q)
  {
  }

  /** Matching is case-sensitive: a lower-case `cargo.toml` has no reader. */
  lemma LowerCaseCargoUnsupported(dirs: seq<string>)
    ensures ReaderFor(PyPath.Path("", dirs + ["cargo.toml"])).None?
  {
    var p := PyPath.Path("", dirs + ["cargo.toml"]);
    assert PyPath.Name(p) == "cargo.toml";
    assert "cargo.toml"[0] != "Cargo.toml"[0];
  }
}
