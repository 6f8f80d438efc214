/**
 * The stored form of the git facts about a project: all nine fields,
 * missing ones as `None`.
 */
module GitInfoSerializer {
  import opened Wrappers
  import Json
  import Dict
  import Data
  import opened Fields

  const GitInfoKeys: seq<string> := [
    "is_git_repo", "remote_url", "current_branch", "commit_count", "contributors",
    "last_commit_date", "branches", "commits_per_month_all_time", "commits_last_30_days"]

  lemma GitInfoKeysDistinct()
    ensures forall i, j :: 0 <= i < j < |GitInfoKeys| ==> GitInfoKeys[i] != GitInfoKeys[j]
  {
  }

  function GitInfoValues(g: Data.GitInfo): (r: seq<Json.Value>)
    ensures |r| == |GitInfoKeys|
  {
    [Json.Bool(g.isGitRepo), OptStrValue(g.remoteUrl), OptStrValue(g.currentBranch),
     OptIntValue(g.commitCount), OptStrsValue(g.contributors), OptStrValue(g.lastCommitDate),
     OptStrsValue(g.branches), OptFloatValue(g.commitsPerMonthAllTime), OptIntValue(g.commitsLast30Days)]
  }

  /** `to_dict`: a dict of the nine fields, in declaration order, each once. */
  function ToDict(g: Data.GitInfo): (r: Json.Value)
    ensures r.Obj? && Dict.Keys(r.fields) == GitInfoKeys && Dict.Unique(r.fields)
  {
    GitInfoKeysDistinct();
    Json.Obj(Dict.Zip(GitInfoKeys, GitInfoValues(g)))
  }

  /** Each field of the stored git facts holds its value. */
  lemma GitInfoField(g: Data.GitInfo, i: nat)
    requires i < |GitInfoKeys|
    ensures Json.Get(ToDict(g), GitInfoKeys[i]) == Some(GitInfoValues(g)[i])
  {
    GitInfoKeysDistinct();
    Dict.ZipGet(GitInfoKeys, GitInfoValues(g), i);
  }

  /** The stored git facts are never an empty dict, so they are always truthy. */
  lemma ToDictTruthy(g: Data.GitInfo)
    ensures Json.Truthy(ToDict(g))
  {
  }
}
