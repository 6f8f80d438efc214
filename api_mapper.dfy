/**
 * The mapping between analysis results and the public result records: the
 * path and timestamps become text, dependencies become 4-tuples, and the
 * dependency details are spread over optional counts and plain lists.
 */
module ApiMapper {
  import opened Wrappers
  import PyPath
  import Dates
  import Data
  import Comparison

  type DependencyTuple = (string, string, string, string)

  /** The public scan result. */
  datatype ApiScanResult = ApiScanResult(
    name: string,
    path: string,
    timestamp: string,
    totalFiles: int,
    totalSizeBytes: int,
    totalSizeKb: int,
    totalSizeMb: int,
    totalLines: int,
    linesByLang: Data.Counts,
    commentLinesByLang: Data.Counts,
    blankLinesByLang: Data.Counts,
    linesByCategory: Data.Counts,
    commentLines: int,
    blankLines: int,
    dependencyTotal: Option<int>,
    dependencyProd: Option<int>,
    dependencyDev: Option<int>,
    dependencyOptional: Option<int>,
    dependencySources: seq<string>,
    dependencyConflicts: seq<string>,
    dependencies: seq<DependencyTuple>)

  /** The public comparison result. */
  datatype ApiComparisonResult = ApiComparisonResult(
    project1: ApiScanResult,
    project2: ApiScanResult,
    deltas: Comparison.Deltas,
    timestamp: string)

  function ToTuple(d: Data.Dependency): DependencyTuple {
    (d.name, d.version, d.category, d.sourceFile)
  }

  function FromTuple(t: DependencyTuple): Data.Dependency {
    Data.Dependency(t.0, t.1, t.2, t.3)
  }

  function ToTuples(deps: seq<Data.Dependency>): (r: seq<DependencyTuple>)
    ensures |r| == |deps|
    ensures forall i :: 0 <= i < |deps| ==> r[i] == ToTuple(deps[i])
  {
    seq(|deps|, i requires 0 <= i < |deps| => ToTuple(deps[i]))
  }

  function FromTuples(ts: seq<DependencyTuple>): (r: seq<Data.Dependency>)
    ensures |r| == |ts|
    ensures forall i :: 0 <= i < |ts| ==> r[i] == FromTuple(ts[i])
  {
    seq(|ts|, i requires 0 <= i < |ts| => FromTuple(ts[i]))
  }

  /** Turning dependencies into tuples and back gives the same dependencies. */
  lemma TuplesRoundTrip(deps: seq<Data.Dependency>)
    ensures FromTuples(ToTuples(deps)) == deps
  {
    var r := FromTuples(ToTuples(deps));
    assert |r| == |deps|;
    forall i | 0 <= i < |deps| ensures r[i] == deps[i] {
    }
  }

  /**
   * `to_api_scan_result`: the counts and maps are copied; without
   * dependency details the four dependency counts are `None` and the three
   * lists empty, and with them every count is present.
   */
  function ToApiScanResult(m: Data.Metrics): (r: ApiScanResult)
    requires Dates.ValidDateTime(m.timestamp)
    ensures m.dependencies.None? ==>
      r.dependencyTotal.None? && r.dependencyProd.None? && r.dependencyDev.None? && r.dependencyOptional.None?
      && r.dependencySources == [] && r.dependencyConflicts == [] && r.dependencies == []
    ensures m.dependencies.Some? ==>
      r.dependencyTotal == Some(m.dependencies.value.totalCount) && r.dependencyProd.Some?
      && r.dependencyDev.Some? && r.dependencyOptional.Some?
      && |r.dependencies| == |m.dependencies.value.dependencies|
  {
    var info := m.dependencies;
    ApiScanResult(
      m.name, PyPath.ToStr(m.path), Dates.DateTimeIso(m.timestamp),
      m.totalFiles, m.totalSizeBytes, m.totalSizeKb, m.totalSizeMb, m.totalLines,
      m.linesByLang, m.commentLinesByLang, m.blankLinesByLang, m.linesByCategory,
      m.commentLines, m.blankLines,
      if info.Some? then Some(info.value.totalCount) else None,
      if info.Some? then Some(info.value.prodCount) else None,
      if info.Some? then Some(info.value.devCount) else None,
      if info.Some? then Some(info.value.optionalCount) else None,
      if info.Some? then info.value.sources else [],
      if info.Some? then info.value.conflicts else [],
      if info.Some? then ToTuples(info.value.dependencies) else [])
  }

  /** Python's `x or 0` for an optional integer. */
  function OrZero(x: Option<int>): int {
    if x.Some? then x.value else 0
  }

  /**
   * `_to_dependency_info`: nothing unless some count is given or the tuple
   * list is non-empty; missing counts read as 0, and a missing or zero
   * total is replaced by the number of dependencies.
   */
  function ToDependencyInfo(r: ApiScanResult): (x: Option<Data.DependencyInfo>)
    ensures x.None? <==>
      r.dependencyTotal.None? && r.dependencyProd.None? && r.dependencyDev.None? && r.dependencyOptional.None?
      && r.dependencies == []
    ensures x.Some? ==>
      x.value.dependencies == FromTuples(r.dependencies)
      && x.value.prodCount == OrZero(r.dependencyProd) && x.value.devCount == OrZero(r.dependencyDev)
      && x.value.optionalCount == OrZero(r.dependencyOptional)
      && x.value.totalCount == (if OrZero(r.dependencyTotal) != 0 then r.dependencyTotal.value else |r.dependencies|)
  {
    var hasPayload :=
      r.dependencyTotal.Some? || r.dependencyProd.Some? || r.dependencyDev.Some? || r.dependencyOptional.Some?
      || r.dependencies != [];
    if !hasPayload then None
    else
      var deps := FromTuples(r.dependencies);
      var total := OrZero(r.dependencyTotal);
      Some(Data.DependencyInfo(
        deps,
        OrZero(r.dependencyProd),
        OrZero(r.dependencyDev),
        OrZero(r.dependencyOptional),
        if total != 0 then total else |deps|,
        r.dependencySources,
        r.dependencyConflicts))
  }

  /** `to_internal_metrics`: fails exactly when the timestamp text is not ISO 8601. */
  function ToInternalMetrics(r: ApiScanResult): (x: Result<Data.Metrics>)
    ensures x.Ok? <==> Dates.ParseDateTime(r.timestamp).Ok?
    ensures x.Ok? ==> x.value.dependencies == ToDependencyInfo(r) && x.value.path == PyPath.Parse(r.path)
  {
    var info := ToDependencyInfo(r);
    match Dates.ParseDateTime(r.timestamp)
    case Err(e) => Err(e)
    case Ok(t) =>
      Ok(Data.Metrics(
        r.name, PyPath.Parse(r.path), t,
        r.totalFiles, r.totalSizeBytes, r.totalSizeKb, r.totalSizeMb,
        r.linesByLang, r.commentLinesByLang, r.blankLinesByLang, r.linesByCategory,
        r.commentLines, r.blankLines, r.totalLines,
        info))
  }

  /** Dependency details survive the trip through the public record unless their total is 0 while dependencies are listed. */
  predicate TotalSurvives(info: Data.DependencyInfo) {
    info.totalCount != 0 || info.totalCount == |info.dependencies|
  }

  /**
   * Metrics → public result → metrics keeps every count, map, name, path
   * in normal form and valid timestamp; the dependency details come back
   * unchanged when their total survives.
   */
  lemma ScanResultRoundTrip(m: Data.Metrics)
    requires PyPath.Valid(m.path) && Dates.ValidDateTime(m.timestamp)
    ensures ToInternalMetrics(ToApiScanResult(m)).Ok?
    ensures var back := ToInternalMetrics(ToApiScanResult(m)).value;
      back.(dependencies := m.dependencies) == m
      && (m.dependencies.None? ==> back.dependencies.None?)
      && (m.dependencies.Some? && TotalSurvives(m.dependencies.value) ==> back.dependencies == m.dependencies)
  {
    PyPath.ParseToStr(m.path);
    Dates.DateTimeRoundTrip(m.timestamp);
    if m.dependencies.Some? {
      TuplesRoundTrip(m.dependencies.value.dependencies);
    }
  }

  /** A total of 0 over a listed dependency comes back as the number of dependencies. */
  lemma ZeroTotalReplaced(m: Data.Metrics, d: Data.Dependency)
    requires PyPath.Valid(m.path) && Dates.ValidDateTime(m.timestamp)
    requires m.dependencies == Some(Data.DependencyInfo([d], 0, 0, 0, 0, [], []))
    ensures ToInternalMetrics(ToApiScanResult(m)).Ok?
    ensures ToInternalMetrics(ToApiScanResult(m)).value.dependencies == Some(Data.DependencyInfo([d], 0, 0, 0, 1, [], []))
  {
    ScanResultRoundTrip(m);
    TuplesRoundTrip([d]);
  }

  /** `to_api_comparison_result`: both projects mapped, the deltas copied. */
  function ToApiComparisonResult(c: Comparison.ComparisonResult): (r: ApiComparisonResult)
    requires Dates.ValidDateTime(c.project1.timestamp) && Dates.ValidDateTime(c.project2.timestamp)
    requires Dates.ValidDateTime(c.timestamp)
    ensures r.deltas == c.deltas
  {
    ApiComparisonResult(
      ToApiScanResult(c.project1), ToApiScanResult(c.project2), c.deltas, Dates.DateTimeIso(c.timestamp))
  }

  /**
   * `to_internal_comparison`: the first project, then the second, then
   * the timestamp is read back; the first failure is raised.
   */
  function ToInternalComparison(r: ApiComparisonResult): (x: Result<Comparison.ComparisonResult>)
    ensures x.Ok? <==>
      Dates.ParseDateTime(r.project1.timestamp).Ok? && Dates.ParseDateTime(r.project2.timestamp).Ok?
      && Dates.ParseDateTime(r.timestamp).Ok?
    ensures x.Ok? ==> x.value.deltas == r.deltas
  {
    var p1 :- ToInternalMetrics(r.project1);
    var p2 :- ToInternalMetrics(r.project2);
    var t :- Dates.ParseDateTime(r.timestamp);
    Ok(Comparison.ComparisonResult(p1, p2, r.deltas, t))
  }

  /** A comparison survives the trip through the public record when both projects' dependency details do. */
  lemma ComparisonRoundTrip(c: Comparison.ComparisonResult)
    requires PyPath.Valid(c.project1.path) && Dates.ValidDateTime(c.project1.timestamp)
    requires PyPath.Valid(c.project2.path) && Dates.ValidDateTime(c.project2.timestamp)
    requires Dates.ValidDateTime(c.timestamp)
    requires c.project1.dependencies.None? || TotalSurvives(c.project1.dependencies.value)
    requires c.project2.dependencies.None? || TotalSurvives(c.project2.dependencies.value)
    ensures ToInternalComparison(ToApiComparisonResult(c)) == Ok(c)
  {
    ScanResultRoundTrip(c.project1);
    ScanResultRoundTrip(c.project2);
    Dates.DateTimeRoundTrip(c.timestamp);
  }
}
