/**
 * The stored form of a tracked project and the conversion back. The name,
 * path and date added are required on reading; the git facts are read
 * only from a truthy `git_info` value.
 */
module ProjectMetaSerializer {
  import opened Wrappers
  import Json
  import Dict
  import PyPath
  import Dates
  import Data
  import opened Fields
  import GitInfoSerializer

  const BaseKeys: seq<string> := ["name", "path", "date_added", "last_scan"]

  lemma BaseKeysDistinct()
    ensures forall i, j :: 0 <= i < j < |BaseKeys| ==> BaseKeys[i] != BaseKeys[j]
    ensures "git_info" !in BaseKeys
  {
  }

  function BaseValues(meta: Data.ProjectMeta): (r: seq<Json.Value>)
    requires Dates.ValidDate(meta.dateAdded)
    ensures |r| == |BaseKeys|
  {
    [Json.Str(meta.name), Json.Str(PyPath.ToStr(meta.path)), Json.Str(Dates.DateIso(meta.dateAdded)), OptStrValue(meta.lastScan)]
  }

  /** `to_dict`: the four base fields, then `git_info` only when there are git facts. */
  function ToDict(meta: Data.ProjectMeta): (r: Json.Value)
    requires Dates.ValidDate(meta.dateAdded)
    ensures r.Obj? && Dict.Unique(r.fields)
    ensures Dict.Keys(r.fields) == if meta.gitInfo.Some? then BaseKeys + ["git_info"] else BaseKeys
  {
    var base := Dict.Zip(BaseKeys, BaseValues(meta));
    BaseKeysDistinct();
    assert Dict.Keys(base) == BaseKeys;
    if meta.gitInfo.Some? then
      var git := GitInfoSerializer.ToDict(meta.gitInfo.value);
      Dict.SetKeys(base, "git_info", git);
      Dict.SetUnique(base, "git_info", git);
      Json.Obj(Dict.Set(base, "git_info", git))
    else Json.Obj(base)
  }

  /** Each base field of the stored project holds its value. */
  lemma BaseField(meta: Data.ProjectMeta, i: nat)
    requires Dates.ValidDate(meta.dateAdded) && i < |BaseKeys|
    ensures Json.Get(ToDict(meta), BaseKeys[i]) == Some(BaseValues(meta)[i])
  {
    var base := Dict.Zip(BaseKeys, BaseValues(meta));
    BaseKeysDistinct();
    Dict.ZipGet(BaseKeys, BaseValues(meta), i);
    if meta.gitInfo.Some? {
      Dict.SetOther(base, "git_info", GitInfoSerializer.ToDict(meta.gitInfo.value), BaseKeys[i]);
    }
  }

  /** The stored project has a `git_info` entry exactly when there are git facts. */
  lemma GitInfoEntry(meta: Data.ProjectMeta)
    requires Dates.ValidDate(meta.dateAdded)
    ensures Json.Get(ToDict(meta), "git_info")
         == if meta.gitInfo.Some? then Some(GitInfoSerializer.ToDict(meta.gitInfo.value)) else None
  {
    BaseKeysDistinct();
    Dict.ZipMissing(BaseKeys, BaseValues(meta), "git_info");
  }

  /** Stored git facts whose fields, where present, have their annotated types. */
  predicate GitInfoShaped(v: Json.Value) {
    v.Obj? && BoolOrAbsent(v, "is_git_repo")
    && OptStrField(v, "remote_url") && OptStrField(v, "current_branch") && OptIntField(v, "commit_count")
    && OptStrsField(v, "contributors") && OptStrField(v, "last_commit_date") && OptStrsField(v, "branches")
    && OptFloatField(v, "commits_per_month_all_time") && OptIntField(v, "commits_last_30_days")
  }

  /** The `GitInfo(...)` built from stored git facts: not a repository unless stated, other fields `None` when missing. */
  function ReadGitInfo(v: Json.Value): (r: Data.GitInfo)
    requires GitInfoShaped(v)
    ensures Json.Get(v, "is_git_repo").None? ==> !r.isGitRepo
    ensures Json.Get(v, "remote_url").None? ==> r.remoteUrl.None?
    ensures Json.Get(v, "commit_count").None? ==> r.commitCount.None?
  {
    Data.GitInfo(
      BoolOr(v, "is_git_repo", false),
      OptStr(v, "remote_url"),
      OptStr(v, "current_branch"),
      OptInt(v, "commit_count"),
      OptStrs(v, "contributors"),
      OptStr(v, "last_commit_date"),
      OptStrs(v, "branches"),
      OptFloat(v, "commits_per_month_all_time"),
      OptInt(v, "commits_last_30_days"))
  }

  /** An empty dict of git facts reads as a directory that is not a repository. */
  lemma EmptyGitInfo()
    ensures GitInfoShaped(Json.Obj([])) && ReadGitInfo(Json.Obj([])) == Data.NotARepository
  {
  }

  /** Stored git facts have every field in its annotated type. */
  lemma GitInfoToDictShaped(g: Data.GitInfo)
    ensures GitInfoShaped(GitInfoSerializer.ToDict(g))
  {
    GitInfoSerializer.GitInfoField(g, 0);
    GitInfoSerializer.GitInfoField(g, 1);
    GitInfoSerializer.GitInfoField(g, 2);
    GitInfoSerializer.GitInfoField(g, 3);
    GitInfoSerializer.GitInfoField(g, 4);
    GitInfoSerializer.GitInfoField(g, 5);
    GitInfoSerializer.GitInfoField(g, 6);
    GitInfoSerializer.GitInfoField(g, 7);
    GitInfoSerializer.GitInfoField(g, 8);
    if g.contributors.Some? {
      StrsRoundTrip(g.contributors.value);
    }
    if g.branches.Some? {
      StrsRoundTrip(g.branches.value);
    }
  }

  /** Storing git facts and reading them back gives the same facts. */
  lemma GitInfoRoundTrip(g: Data.GitInfo)
    ensures GitInfoShaped(GitInfoSerializer.ToDict(g))
    ensures ReadGitInfo(GitInfoSerializer.ToDict(g)) == g
  {
    GitInfoToDictShaped(g);
    var v := GitInfoSerializer.ToDict(g);
    GitInfoSerializer.GitInfoField(g, 0);
    GitInfoSerializer.GitInfoField(g, 1);
    GitInfoSerializer.GitInfoField(g, 2);
    GitInfoSerializer.GitInfoField(g, 3);
    GitInfoSerializer.GitInfoField(g, 5);
    GitInfoSerializer.GitInfoField(g, 7);
    GitInfoSerializer.GitInfoField(g, 8);
    assert OptStrs(v, "contributors") == g.contributors by {
      GitInfoSerializer.GitInfoField(g, 4);
      if g.contributors.Some? {
        StrsRoundTrip(g.contributors.value);
      }
    }
    assert OptStrs(v, "branches") == g.branches by {
      GitInfoSerializer.GitInfoField(g, 6);
      if g.branches.Some? {
        StrsRoundTrip(g.branches.value);
      }
    }
  }

  /** A stored project whose fields, where present, have their annotated types. */
  predicate ProjectMetaShaped(v: Json.Value) {
    var git := Json.Get(v, "git_info");
    v.Obj? && StrOrAbsent(v, "name") && StrOrAbsent(v, "path") && StrOrAbsent(v, "date_added")
    && OptStrField(v, "last_scan")
    && (git.None? || !Json.Truthy(git.value) || GitInfoShaped(git.value))
  }

  /** The git facts of a stored project: read only from a truthy `git_info` value. */
  function StoredGitInfo(v: Json.Value): (r: Option<Data.GitInfo>)
    requires ProjectMetaShaped(v)
    ensures r.Some? <==> Json.Get(v, "git_info").Some? && Json.Truthy(Json.Get(v, "git_info").value)
  {
    var git := Json.Get(v, "git_info");
    if git.Some? && Json.Truthy(git.value) then Some(ReadGitInfo(git.value)) else None
  }

  /**
   * `from_dict`: a missing name, path or date added raises `KeyError`, in
   * that order, and a date that is not ISO 8601 raises `ValueError`.
   */
  function FromDict(v: Json.Value): (r: Result<Data.ProjectMeta>)
    requires ProjectMetaShaped(v)
    ensures Json.Get(v, "name").None? ==> r == Err(KeyError("name"))
    ensures Json.Get(v, "name").Some? && Json.Get(v, "path").None? ==> r == Err(KeyError("path"))
    ensures r.Ok? <==> Json.Get(v, "name").Some? && Json.Get(v, "path").Some? && Json.Get(v, "date_added").Some?
                       && Dates.ParseDate(Json.Get(v, "date_added").value.s).Ok?
    ensures r.Ok? ==> r.value.name == Json.Get(v, "name").value.s && r.value.gitInfo == StoredGitInfo(v)
  {
    var gitInfo := StoredGitInfo(v);
    var name := Json.Get(v, "name");
    var path := Json.Get(v, "path");
    var dateAdded := Json.Get(v, "date_added");
    if name.None? then Err(KeyError("name"))
    else if path.None? then Err(KeyError("path"))
    else if dateAdded.None? then Err(KeyError("date_added"))
    else
      match Dates.ParseDate(dateAdded.value.s)
      case Err(e) => Err(e)
      case Ok(d) => Ok(Data.ProjectMeta(name.value.s, PyPath.Parse(path.value.s), d, OptStr(v, "last_scan"), gitInfo))
  }

  /** The stored form of a project has every field in its annotated type. */
  lemma ToDictShaped(meta: Data.ProjectMeta)
    requires Dates.ValidDate(meta.dateAdded)
    ensures ProjectMetaShaped(ToDict(meta))
  {
    BaseField(meta, 0);
    BaseField(meta, 1);
    BaseField(meta, 2);
    BaseField(meta, 3);
    GitInfoEntry(meta);
    if meta.gitInfo.Some? {
      GitInfoRoundTrip(meta.gitInfo.value);
    }
  }

  /** Storing a project and reading it back gives the same project, for any path in normal form. */
  lemma ProjectMetaRoundTrip(meta: Data.ProjectMeta)
    requires PyPath.Valid(meta.path) && Dates.ValidDate(meta.dateAdded)
    ensures ProjectMetaShaped(ToDict(meta))
    ensures FromDict(ToDict(meta)) == Ok(meta)
  {
    ToDictShaped(meta);
    BaseField(meta, 0);
    BaseField(meta, 1);
    BaseField(meta, 2);
    BaseField(meta, 3);
    GitInfoEntry(meta);
    PyPath.ParseToStr(meta.path);
    Dates.DateRoundTrip(meta.dateAdded);
    if meta.gitInfo.Some? {
      GitInfoRoundTrip(meta.gitInfo.value);
      GitInfoSerializer.ToDictTruthy(meta.gitInfo.value);
    }
  }
}
