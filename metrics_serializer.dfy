/**
 * The stored form of an analysis result, and the conversion back. The
 * path is stored as its text and the timestamp in ISO 8601; reading the
 * timestamp back is the one step that can fail.
 */
module MetricsSerializer {
  import opened Wrappers
  import Json
  import Dict
  import PyPath
  import Dates
  import Data
  import opened Fields
  import opened ProjectInfoSerializer

  /** The keys every stored result has, in the order they are written. */
  const BaseKeys: seq<string> := [
    "name", "path", "timestamp", "total_files", "total_size_bytes", "total_size_kb", "total_size_mb",
    "lines_by_lang", "comment_lines_by_lang", "blank_lines_by_lang", "lines_by_category",
    "comment_lines", "blank_lines", "total_lines"]

  lemma BaseKeysDistinct()
    ensures forall i, j :: 0 <= i < j < |BaseKeys| ==> BaseKeys[i] != BaseKeys[j]
    ensures "dependencies" !in BaseKeys
  {
  }

  function BaseValues(m: Data.Metrics): (r: seq<Json.Value>)
    requires Dates.ValidDateTime(m.timestamp)
    ensures |r| == |BaseKeys|
  {
    [Json.Str(m.name), Json.Str(PyPath.ToStr(m.path)), Json.Str(Dates.DateTimeIso(m.timestamp)),
     Json.Int(m.totalFiles), Json.Int(m.totalSizeBytes), Json.Int(m.totalSizeKb), Json.Int(m.totalSizeMb),
     Ints(m.linesByLang), Ints(m.commentLinesByLang), Ints(m.blankLinesByLang), Ints(m.linesByCategory),
     Json.Int(m.commentLines), Json.Int(m.blankLines), Json.Int(m.totalLines)]
  }

  /**
   * `to_dict`: the fourteen base fields, then `dependencies` only when the
   * result has dependency details (a `DependencyInfo` is always truthy).
   */
  function ToDict(m: Data.Metrics): (r: Json.Value)
    requires Dates.ValidDateTime(m.timestamp)
    ensures r.Obj? && Dict.Unique(r.fields)
    ensures Dict.Keys(r.fields) == if m.dependencies.Some? then BaseKeys + ["dependencies"] else BaseKeys
  {
    var base := Dict.Zip(BaseKeys, BaseValues(m));
    BaseKeysDistinct();
    assert Dict.Keys(base) == BaseKeys;
    if m.dependencies.Some? then
      var deps := SerializeDependencyInfo(m.dependencies.value);
      Dict.SetKeys(base, "dependencies", deps);
      Dict.SetUnique(base, "dependencies", deps);
      Json.Obj(Dict.Set(base, "dependencies", deps))
    else Json.Obj(base)
  }

  /** Each base field of the stored result holds its value. */
  lemma BaseField(m: Data.Metrics, i: nat)
    requires Dates.ValidDateTime(m.timestamp) && i < |BaseKeys|
    ensures Json.Get(ToDict(m), BaseKeys[i]) == Some(BaseValues(m)[i])
  {
    var base := Dict.Zip(BaseKeys, BaseValues(m));
    BaseKeysDistinct();
    Dict.ZipGet(BaseKeys, BaseValues(m), i);
    if m.dependencies.Some? {
      Dict.SetOther(base, "dependencies", SerializeDependencyInfo(m.dependencies.value), BaseKeys[i]);
    }
  }

  /** The stored result has a `dependencies` entry exactly when the result has dependency details. */
  lemma DependenciesField(m: Data.Metrics)
    requires Dates.ValidDateTime(m.timestamp)
    ensures Json.Get(ToDict(m), "dependencies")
         == if m.dependencies.Some? then Some(SerializeDependencyInfo(m.dependencies.value)) else None
  {
    BaseKeysDistinct();
    Dict.ZipMissing(BaseKeys, BaseValues(m), "dependencies");
  }

  /** A stored result whose fields, where present, have their annotated types. */
  predicate MetricsShaped(v: Json.Value) {
    var deps := Json.Get(v, "dependencies");
    v.Obj?
    && StrOrAbsent(v, "name") && StrOrAbsent(v, "path") && StrOrAbsent(v, "timestamp")
    && IntOrAbsent(v, "total_files") && IntOrAbsent(v, "total_size_bytes")
    && IntOrAbsent(v, "total_size_kb") && IntOrAbsent(v, "total_size_mb")
    && IntsOrAbsent(v, "lines_by_lang") && IntsOrAbsent(v, "comment_lines_by_lang")
    && IntsOrAbsent(v, "blank_lines_by_lang") && IntsOrAbsent(v, "lines_by_category")
    && IntOrAbsent(v, "comment_lines") && IntOrAbsent(v, "blank_lines") && IntOrAbsent(v, "total_lines")
    && (deps.None? || !Json.Truthy(deps.value) || DependencyInfoShaped(deps.value))
  }

  /** The dependency details of a stored result: read only from a truthy `dependencies` value. */
  function StoredDependencies(v: Json.Value): (r: Option<Data.DependencyInfo>)
    requires MetricsShaped(v)
    ensures r.Some? <==> Json.Get(v, "dependencies").Some? && Json.Truthy(Json.Get(v, "dependencies").value)
  {
    var deps := Json.Get(v, "dependencies");
    if deps.Some? && Json.Truthy(deps.value) then Some(DeserializeDependencyInfo(deps.value)) else None
  }

  /**
   * `from_dict`: every field falls back to its default (an empty name, the
   * path `""`, zero, an empty dict), except the timestamp, whose default
   * `""` is not an ISO 8601 text, so a result without one raises
   * `ValueError`.
   */
  function FromDict(v: Json.Value): (r: Result<Data.Metrics>)
    requires MetricsShaped(v)
    ensures r.Ok? <==> Dates.ParseDateTime(StrOr(v, "timestamp", "")).Ok?
    ensures Json.Get(v, "timestamp").None? ==> r.Err? && r.error.ValueError?
    ensures r.Ok? ==> r.value.timestamp == Dates.ParseDateTime(StrOr(v, "timestamp", "")).value
    ensures r.Ok? ==> r.value.dependencies == StoredDependencies(v)
  {
    var dependencies := StoredDependencies(v);
    match Dates.ParseDateTime(StrOr(v, "timestamp", ""))
    case Err(e) => Err(e)
    case Ok(timestamp) =>
      Ok(Data.Metrics(
        StrOr(v, "name", ""),
        PyPath.Parse(StrOr(v, "path", "")),
        timestamp,
        IntOr(v, "total_files", 0),
        IntOr(v, "total_size_bytes", 0),
        IntOr(v, "total_size_kb", 0),
        IntOr(v, "total_size_mb", 0),
        IntsOr(v, "lines_by_lang"),
        IntsOr(v, "comment_lines_by_lang"),
        IntsOr(v, "blank_lines_by_lang"),
        IntsOr(v, "lines_by_category"),
        IntOr(v, "comment_lines", 0),
        IntOr(v, "blank_lines", 0),
        IntOr(v, "total_lines", 0),
        dependencies))
  }

  /** The stored form of a result has every field in its annotated type. */
  lemma ToDictShaped(m: Data.Metrics)
    requires Dates.ValidDateTime(m.timestamp)
    ensures MetricsShaped(ToDict(m))
  {
    BaseField(m, 0);
    BaseField(m, 1);
    BaseField(m, 2);
    BaseField(m, 3);
    BaseField(m, 4);
    BaseField(m, 5);
    BaseField(m, 6);
    BaseField(m, 7);
    BaseField(m, 8);
    BaseField(m, 9);
    BaseField(m, 10);
    BaseField(m, 11);
    BaseField(m, 12);
    BaseField(m, 13);
    DependenciesField(m);
    IntsRoundTrip(m.linesByLang);
    IntsRoundTrip(m.commentLinesByLang);
    IntsRoundTrip(m.blankLinesByLang);
    IntsRoundTrip(m.linesByCategory);
    if m.dependencies.Some? {
      DependencyInfoRoundTrip(m.dependencies.value);
    }
  }

  /**
   * Storing a result and reading it back gives the same result, for any
   * path in normal form and any valid timestamp.
   */
  lemma MetricsRoundTrip(m: Data.Metrics)
    requires PyPath.Valid(m.path) && Dates.ValidDateTime(m.timestamp)
    ensures MetricsShaped(ToDict(m))
    ensures FromDict(ToDict(m)) == Ok(m)
  {
    ToDictShaped(m);
    var v := ToDict(m);
    BaseField(m, 0);
    BaseField(m, 1);
    BaseField(m, 2);
    BaseField(m, 3);
    BaseField(m, 4);
    BaseField(m, 5);
    BaseField(m, 6);
    BaseField(m, 7);
    BaseField(m, 8);
    BaseField(m, 9);
    BaseField(m, 10);
    BaseField(m, 11);
    BaseField(m, 12);
    BaseField(m, 13);
    DependenciesField(m);
    PyPath.ParseToStr(m.path);
    Dates.DateTimeRoundTrip(m.timestamp);
    IntsRoundTrip(m.linesByLang);
    IntsRoundTrip(m.commentLinesByLang);
    IntsRoundTrip(m.blankLinesByLang);
    IntsRoundTrip(m.linesByCategory);
    if m.dependencies.Some? {
      DependencyInfoRoundTrip(m.dependencies.value);
      DependencyInfoTruthy(m.dependencies.value);
    }
  }
}
