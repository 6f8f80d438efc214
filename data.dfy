/**
 * The immutable records passed between the scanner, the analyzer, the
 * dependency readers, the serialisers and the storage layer.
 */
module Data {
  import opened Wrappers
  import Dict
  import PyPath
  import Dates
  import Json

  /** Counters keyed by language or category name, in insertion order. */
  type Counts = Dict.Dict<string, int>

  /** One dependency found in a project manifest. */
  datatype Dependency = Dependency(name: string, version: string, category: string, sourceFile: string)

  /** All dependencies of a project with per-category counts, sources and conflicts. */
  datatype DependencyInfo = DependencyInfo(
    dependencies: seq<Dependency>,
    prodCount: int,
    devCount: int,
    optionalCount: int,
    totalCount: int,
    sources: seq<string>,
    conflicts: seq<string>)

  /** What the project manifests say: name, dependencies and the files read. */
  datatype ProjectFileInfo = ProjectFileInfo(
    name: Option<string>,
    dependencies: Option<DependencyInfo>,
    sourceFiles: seq<string>)

  /** The result of one analysis run. */
  datatype Metrics = Metrics(
    name: string,
    path: PyPath.Path,
    timestamp: Dates.DateTime,
    totalFiles: int,
    totalSizeBytes: int,
    totalSizeKb: int,
    totalSizeMb: int,
    linesByLang: Counts,
    commentLinesByLang: Counts,
    blankLinesByLang: Counts,
    linesByCategory: Counts,
    commentLines: int,
    blankLines: int,
    totalLines: int,
    dependencies: Option<DependencyInfo>)

  /**
   * What the scanner found. `fileContents` maps each scanned text file to
   * its text, or to nothing when reading it failed.
   */
  datatype ScanResult = ScanResult(
    totalFiles: int,
    totalSizeBytes: int,
    scannedFiles: seq<PyPath.Path>,
    duplicateFiles: seq<PyPath.Path>,
    fileContents: Option<Dict.Dict<PyPath.Path, Option<string>>>)

  /** Repository facts gathered from git; every field but the flag may be missing. */
  datatype GitInfo = GitInfo(
    isGitRepo: bool,
    remoteUrl: Option<string>,
    currentBranch: Option<string>,
    commitCount: Option<int>,
    contributors: Option<seq<string>>,
    lastCommitDate: Option<string>,
    branches: Option<seq<string>>,
    commitsPerMonthAllTime: Option<Json.PyFloat>,
    commitsLast30Days: Option<int>)

  /** A tracked project. */
  datatype ProjectMeta = ProjectMeta(
    name: string,
    path: PyPath.Path,
    dateAdded: Dates.Date,
    lastScan: Option<string>,
    gitInfo: Option<GitInfo>)

  /** The git result for a directory that is not a (non-bare) repository. */
  const NotARepository: GitInfo :=
    GitInfo(false, None, None, None, None, None, None, None, None)

  /** `sum(1 for d in deps if d.category == category)`. */
  function CountCategory(deps: seq<Dependency>, category: string): (n: nat)
    ensures n <= |deps|
  {
    if deps == [] then 0
    else (if deps[0].category == category then 1 else 0) + CountCategory(deps[1..], category)
  }

  /**
   * The three category counts never exceed the total, and add up to it
   * when every dependency is `prod`, `dev` or `optional`.
   */
  lemma {:induction false} CategoryCounts(deps: seq<Dependency>)
    ensures CountCategory(deps, "prod") + CountCategory(deps, "dev") + CountCategory(deps, "optional") <= |deps|
    ensures (forall d :: d in deps ==> d.category in ["prod", "dev", "optional"]) ==>
      CountCategory(deps, "prod") + CountCategory(deps, "dev") + CountCategory(deps, "optional") == |deps|
  {
    if deps != [] {
      CategoryCounts(deps[1..]);
    }
  }

  lemma {:induction false} CountCategoryAppend(a: seq<Dependency>, b: seq<Dependency>, category: string)
    ensures CountCategory(a + b, category) == CountCategory(a, category) + CountCategory(b, category)
  {
    if a != [] {
      assert (a + b)[1..] == a[1..] + b;
      CountCategoryAppend(a[1..], b, category);
    } else {
      assert a + b == b;
    }
  }
}
