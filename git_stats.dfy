/**
 * Reading a repository's metadata from git's output: the contributors, the
 * branches, the date of the last commit and the number of recent commits.
 * Git itself is not run; each reading takes the text the git command
 * prints, or `None` for a command that fails.
 */
module GitStats {
  import opened Wrappers
  import opened PyStr
  import PyInt
  import Json
  import opened StrOrder
  import opened Data
  import ConfigValues

  /** `xs[:n]`, where a negative `n` counts from the end. */
  function SliceTo<T>(xs: seq<T>, n: int): (r: seq<T>)
    ensures n >= 0 ==> r == xs[..if n < |xs| then n else |xs|]
    ensures n < 0 ==> r == xs[..if |xs| + n > 0 then |xs| + n else 0]
  {
    if n >= 0 then xs[..if n < |xs| then n else |xs|]
    else xs[..if |xs| + n > 0 then |xs| + n else 0]
  }

  lemma SliceToSorted(xs: seq<string>, n: int)
    requires StrictlySorted(xs)
    ensures StrictlySorted(SliceTo(xs, n)) && forall y :: y in SliceTo(xs, n) ==> y in xs
  {
  }

  /**
   * An element of a sorted list that the slice leaves out comes after every
   * element it keeps, and the slice then holds as many as were asked for.
   */
  lemma SliceToDropped(xs: seq<string>, n: int, y: string)
    requires StrictlySorted(xs) && y in xs && y !in SliceTo(xs, n)
    ensures forall x :: x in SliceTo(xs, n) ==> Less(x, y)
    ensures n >= 0 ==> |SliceTo(xs, n)| == n
    ensures n < 0 ==> |SliceTo(xs, n)| == if |xs| + n > 0 then |xs| + n else 0
  {
    var j :| 0 <= j < |xs| && xs[j] == y;
    var r := SliceTo(xs, n);
    assert |r| <= j;
    forall x | x in r ensures Less(x, y) {
      var i :| 0 <= i < |r| && r[i] == x;
      assert xs[i] == x;
    }
  }

  /** `_get_contributors`: the distinct non-blank author names, stripped and sorted, at most `maxContributors` of them. */
  function Contributors(authorsOutput: Option<string>, maxContributors: int): (r: Option<seq<string>>)
    ensures authorsOutput.None? || authorsOutput == Some([]) ==> r.None?
    ensures r.Some? ==> StrictlySorted(r.value) && (maxContributors >= 0 ==> |r.value| <= maxContributors)
  {
    match authorsOutput
    case None => None
    case Some(out) =>
      if out == [] then None
      else
        var unique := UniqueAuthors(out);
        SliceToSorted(unique, maxContributors);
        if unique == [] then None else Some(SliceTo(unique, maxContributors))
  }

  /** The distinct non-blank names, sorted, before the limit is applied. */
  function UniqueAuthors(out: string): seq<string> {
    SortedSet(ConfigValues.NonEmptyStripped(Split(out, '\n')))
  }

  /** There are no contributors exactly when git fails, prints nothing, or prints only blank lines. */
  lemma ContributorsNone(out: string, maxContributors: int)
    requires out != []
    ensures Contributors(Some(out), maxContributors).None? <==> forall line :: line in Split(out, '\n') ==> Strip(line) == []
  {
    var lines := Split(out, '\n');
    StrippedMembers(lines);
    if UniqueAuthors(out) != [] {
      var name := UniqueAuthors(out)[0];
      assert name in ConfigValues.NonEmptyStripped(lines);
    } else {
      forall line | line in lines ensures Strip(line) == [] {
        assert Strip(line) != [] ==> Strip(line) in ConfigValues.NonEmptyStripped(lines);
      }
    }
  }

  /**
   * The contributors reported are sorted, repeat no one, are each the
   * stripped name on some line of the output, and are no more than asked
   * for; a non-blank name left out comes after every name reported, which
   * then number exactly the limit.
   */
  lemma ContributorsShape(out: string, maxContributors: int)
    requires Contributors(Some(out), maxContributors).Some?
    ensures var r := Contributors(Some(out), maxContributors).value;
      StrictlySorted(r)
      && (forall name :: name in r ==> name != [] && exists line :: line in Split(out, '\n') && Strip(line) == name)
      && (maxContributors >= 0 ==> |r| <= maxContributors)
      && (forall line :: line in Split(out, '\n') && Strip(line) != [] && Strip(line) !in r ==>
            (forall x :: x in r ==> Less(x, Strip(line)))
            && (maxContributors >= 0 ==> |r| == maxContributors))
  {
    var lines := Split(out, '\n');
    StrippedMembers(lines);
    var unique := UniqueAuthors(out);
    SliceToSorted(unique, maxContributors);
    forall line | line in lines && Strip(line) != [] && Strip(line) !in SliceTo(unique, maxContributors)
      ensures (forall x :: x in SliceTo(unique, maxContributors) ==> Less(x, Strip(line)))
              && (maxContributors >= 0 ==> |SliceTo(unique, maxContributors)| == maxContributors)
    {
      SliceToDropped(unique, maxContributors, Strip(line));
    }
  }

  /** A name is kept exactly when it is the non-empty stripped form of some line. */
  lemma {:induction false} StrippedMembers(lines: seq<string>)
    ensures forall name :: name in ConfigValues.NonEmptyStripped(lines) <==>
      name != [] && exists line :: line in lines && Strip(line) == name
  {
    if lines != [] {
      var init := lines[..|lines| - 1];
      StrippedMembers(init);
      assert lines == init + [lines[|lines| - 1]];
    }
  }

  /** `_get_last_commit_date`: the printed date, or nothing for empty output. */
  function LastCommitDate(output: Option<string>): (r: Option<string>)
    ensures r.Some? <==> output.Some? && output.value != []
    ensures r.Some? ==> r.value == output.value
  {
    match output
    case None => None
    case Some(d) => if d != [] then Some(d) else None
  }

  /** `_get_commits_last_30_days`: empty output counts 0; text `int()` refuses is a failure. */
  function CommitsLast30Days(output: Option<string>): (r: Option<int>)
    ensures output == Some([]) ==> r == Some(0)
    ensures output.Some? && output.value != [] ==> r == PyInt.ParseInt(output.value)
    ensures output.None? ==> r.None?
  {
    match output
    case None => None
    case Some(s) => if s == [] then Some(0) else PyInt.ParseInt(s)
  }

  /** Printed counts read back: `n` commits printed as text is `n`. */
  lemma CommitsLast30DaysRoundTrip(n: int)
    ensures CommitsLast30Days(Some(PyInt.IntToStr(n))) == Some(n)
  {
    PyInt.IntRoundTrip(n);
  }

  /** The branch named on one line of `git branch -a`, if it is a local one. */
  function BranchOfLine(line: string): (r: Option<string>)
    ensures r.Some? ==> r.value != [] && !StartsWith(r.value, "remotes/")
  {
    var b := Strip(line);
    var b := if StartsWith(b, "* ") then Strip(b[2..]) else b;
    if StartsWith(b, "remotes/") then None
    else if b != [] then Some(b)
    else None
  }

  /** The branches the loop of `_get_branches` collects, in order. */
  function BranchList(lines: seq<string>): (r: seq<string>)
    ensures forall b :: b in r ==> b != [] && !StartsWith(b, "remotes/")
  {
    if lines == [] then []
    else BranchList(lines[..|lines| - 1]) + Listed(BranchOfLine(lines[|lines| - 1]))
  }

  /** A branch is collected exactly when some line names it. */
  lemma {:induction false} BranchListMembers(lines: seq<string>)
    ensures forall b :: b in BranchList(lines) <==> exists line :: line in lines && BranchOfLine(line) == Some(b)
  {
    if lines != [] {
      var init := lines[..|lines| - 1];
      BranchListMembers(init);
      assert lines == init + [lines[|lines| - 1]];
    }
  }

  lemma BranchListStep(lines: seq<string>, i: nat)
    requires i < |lines|
    ensures BranchList(lines[..i + 1]) == BranchList(lines[..i]) + Listed(BranchOfLine(lines[i]))
  {
    assert lines[..i + 1][..i] == lines[..i];
  }

  const MaxBranches: int := 5

  /** `_get_branches`: the distinct local branches, sorted, at most five; none for empty output. */
  function Branches(output: Option<string>): (r: Option<seq<string>>)
    ensures output.None? || Strip(output.value) == [] ==> r.None?
    ensures r.Some? ==> StrictlySorted(r.value) && r.value != [] && |r.value| <= MaxBranches
  {
    match output
    case None => None
    case Some(out) =>
      var text := Strip(out);
      if text == [] then None
      else
        var unique := SortedSet(BranchList(Split(text, '\n')));
        SliceToSorted(unique, MaxBranches);
        if unique == [] then None
        else
          assert unique[0] in SliceTo(unique, MaxBranches);
          Some(SliceTo(unique, MaxBranches))
  }

  /** The body of the loop of `_get_branches`, for one line. */
  method CollectBranch(branches: seq<string>, line: string) returns (r: seq<string>)
    ensures r == branches + Listed(BranchOfLine(line))
  {
    r := branches;
    var branch := Strip(line);
    if StartsWith(branch, "* ") {
      branch := Strip(branch[2..]);
    }
    if StartsWith(branch, "remotes/") {
      return;
    }
    if branch != [] {
      r := branches + [branch];
    }
  }

  /** `_get_branches`, with its loop. */
  method GetBranches(output: Option<string>) returns (r: Option<seq<string>>)
    ensures r == Branches(output)
  {
    if output.None? {
      return None;
    }
    var branchesOutput := Strip(output.value);
    if branchesOutput == [] {
      return None;
    }
    var lines := Split(branchesOutput, '\n');
    var branches: seq<string> := [];
    for i := 0 to |lines|
      invariant branches == BranchList(lines[..i])
    {
      BranchListStep(lines, i);
      branches := CollectBranch(branches, lines[i]);
    }
    assert lines[..|lines|] == lines;
    var unique := SortedSet(branches);
    return if unique == [] then None else Some(SliceTo(unique, MaxBranches));
  }

  /**
   * The branches reported are sorted, distinct, local (no `remotes/`
   * prefix), non-empty, at most five, and each named by a line of the
   * output; a branch some line names that is left out comes after every
   * branch reported, which then number five.
   */
  lemma BranchesShape(output: Option<string>)
    ensures Branches(output).Some? ==>
      var bs := Branches(output).value;
      var lines := Split(Strip(output.value), '\n');
      && StrictlySorted(bs) && |bs| <= MaxBranches && bs != []
      && (forall b :: b in bs ==> b != [] && !StartsWith(b, "remotes/"))
      && (forall b :: b in bs ==> exists line :: line in lines && BranchOfLine(line) == Some(b))
      && (forall line :: line in lines && BranchOfLine(line).Some? && BranchOfLine(line).value !in bs ==>
            |bs| == MaxBranches && forall b :: b in bs ==> Less(b, BranchOfLine(line).value))
  {
    if output.Some? && Strip(output.value) != [] {
      var lines := Split(Strip(output.value), '\n');
      BranchListMembers(lines);
      var unique := SortedSet(BranchList(lines));
      SliceToSorted(unique, MaxBranches);
      forall line | line in lines && BranchOfLine(line).Some? && BranchOfLine(line).value !in SliceTo(unique, MaxBranches)
        ensures |SliceTo(unique, MaxBranches)| == MaxBranches
                && forall b :: b in SliceTo(unique, MaxBranches) ==> Less(b, BranchOfLine(line).value)
      {
        SliceToDropped(unique, MaxBranches, BranchOfLine(line).value);
      }
    }
  }

  /** The current branch, marked with `* `, is reported under its own name. */
  lemma CurrentBranchMarker(name: string)
    requires name != [] && Strip(name) == name && !StartsWith(name, "remotes/")
    ensures BranchOfLine("* " + name) == Some(name)
  {
    var line := "* " + name;
    assert line[0] == '*' && line[1] == ' ';
    assert !IsSpace(name[|name| - 1]);
    StripOfMarked(name);
    assert line[2..] == name;
  }

  lemma StripOfMarked(name: string)
    requires name != [] && !IsSpace(name[|name| - 1])
    ensures Strip("* " + name) == "* " + name
  {
    var line := "* " + name;
    assert line[|line| - 1] == name[|name| - 1];
    StripNoop(line);
  }

  /** What git is asked, and what it prints; `None` for a command that fails. */
  datatype GitOutputs = GitOutputs(
    remoteUrls: seq<string>,
    activeBranch: Option<string>,
    revListCount: Option<string>,
    authors: Option<string>,
    lastCommitDate: Option<string>,
    branches: Option<string>,
    commitsPerMonth: Option<Json.PyFloat>,
    commitsLast30Days: Option<string>)

  /** `_extract_git_metadata`. */
  function ExtractGitMetadata(git: GitOutputs, maxContributors: int): (info: GitInfo)
    ensures info.isGitRepo
    ensures info.remoteUrl.Some? <==> git.remoteUrls != []
    ensures info.contributors == Contributors(git.authors, maxContributors)
    ensures info.branches == Branches(git.branches)
  {
    GitInfo(
      true,
      if git.remoteUrls != [] then Some(git.remoteUrls[0]) else None,
      git.activeBranch,
      if git.revListCount.Some? then PyInt.ParseInt(git.revListCount.value) else None,
      Contributors(git.authors, maxContributors),
      LastCommitDate(git.lastCommitDate),
      Branches(git.branches),
      git.commitsPerMonth,
      CommitsLast30Days(git.commitsLast30Days))
  }

  /**
   * `detect_repository`: `repo` is `None` where no repository is found;
   * a bare repository is not analysed.
   */
  function DetectRepository(repo: Option<GitOutputs>, bare: bool, maxContributors: int): (info: GitInfo)
    ensures info.isGitRepo <==> repo.Some? && !bare
    ensures !info.isGitRepo ==> info == NotARepository
  {
    if repo.None? || bare then NotARepository else ExtractGitMetadata(repo.value, maxContributors)
  }

  /** Outside a repository every field but the flag is empty. */
  lemma NotARepositoryEmpty(repo: Option<GitOutputs>, bare: bool, maxContributors: int)
    requires repo.None? || bare
    ensures var info := DetectRepository(repo, bare, maxContributors);
      !info.isGitRepo && info.remoteUrl.None? && info.currentBranch.None? && info.commitCount.None?
      && info.contributors.None? && info.lastCommitDate.None? && info.branches.None?
      && info.commitsPerMonthAllTime.None? && info.commitsLast30Days.None?
  {
  }
}
