/**
 * The configuration registry: named sections, each holding named settings,
 * with the defaults the program starts from. Sections and settings are
 * looked up by name, as the loader does with `getattr`/`hasattr`.
 */
module ConfigData {
  import opened Wrappers
  import Json
  import Dict
  import opened ConfigValues

  /** Section name to (setting name to value), in declaration order. */
  type Config = Dict.Dict<string, Dict.Dict<string, Value>>

  /** `getattr(getattr(config, section), setting)`, when both exist. */
  function SettingOf(config: Config, section: string, setting: string): Option<Value> {
    match Dict.Get(config, section)
    case None => None
    case Some(obj) => Dict.Get(obj, setting)
  }

  function B(b: bool): Value {
    Plain(Json.Bool(b))
  }

  function I(i: int): Value {
    Plain(Json.Int(i))
  }

  function S(s: string): Value {
    Plain(Json.Str(s))
  }

  const DefaultBinaryExtensions: seq<string> :=
    [".exe", ".dll", ".so", ".dylib", ".jpg", ".png", ".gif", ".pdf", ".zip", ".tar", ".gz", ".pyc"]

  /** `Config.default()`; `cwd` is the working directory the `core.path` default is taken from. */
  function DefaultConfig(cwd: string): Config {
    [ ("core", [
        ("name", S("statsvy-projekt")), ("path", S(cwd)), ("default_format", S("table")),
        ("out_dir", S("./")), ("verbose", B(false)), ("color", B(true)), ("show_progress", B(true)),
        ("performance", Record([("track_mem", B(false)), ("track_io", B(false)), ("track_cpu", B(false))]))]),
      ("scan", [
        ("follow_symlinks", B(false)), ("max_depth", I(-1)),
        ("min_file_size_mb", Plain(Json.Float(Json.PyFloat(0.0, "0.0")))),
        ("max_file_size_mb", Plain(Json.Float(Json.PyFloat(100.0, "100.0")))),
        ("respect_gitignore", B(true)), ("include_hidden", B(false)), ("timeout_seconds", I(300)),
        ("ignore_patterns", Tuple([".git"])), ("binary_extensions", Tuple(DefaultBinaryExtensions))]),
      ("language", [
        ("custom_language_mapping", Plain(Json.Obj([]))), ("exclude_languages", Tuple([])),
        ("min_lines_threshold", I(0)), ("count_comments", B(true)), ("count_blank_lines", B(true)),
        ("count_docstrings", B(true))]),
      ("storage", [("auto_save", B(true))]),
      ("git", [
        ("enabled", B(true)), ("include_stats", B(true)), ("include_branches", Tuple([])),
        ("detect_authors", B(true)), ("show_contributors", B(true)), ("max_contributors", I(5))]),
      ("display", [("truncate_paths", B(true)), ("show_percentages", B(true)), ("show_deps_list", B(true))]),
      ("comparison", [("show_unchanged", B(false))]),
      ("dependencies", [("include_dependencies", B(true)), ("exclude_dev_dependencies", B(false))]),
      ("files", [
        ("duplicate_threshold_bytes", I(1024)), ("find_large_files", B(true)),
        ("large_file_threshold_mb", I(10))])
    ]
  }

  /** The default binary extensions are a tuple in the `scan` section, without repeats. */
  lemma DefaultBinaryExtensionsShape(cwd: string)
    ensures SettingOf(DefaultConfig(cwd), "scan", "binary_extensions") == Some(Tuple(DefaultBinaryExtensions))
    ensures forall i, j :: 0 <= i < j < |DefaultBinaryExtensions| ==> DefaultBinaryExtensions[i] != DefaultBinaryExtensions[j]
  {
    var c := DefaultConfig(cwd);
    Dict.GetFirst(c, 1, "scan");
    Dict.GetFirst(c[1].1, 8, "binary_extensions");
  }
}
