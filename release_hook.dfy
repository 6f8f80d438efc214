/**
 * The commit-msg hook that keeps `main` for releases: a commit on `main`
 * is accepted only when its subject starts with `release`, ignoring case.
 * The current branch (`None` when git cannot tell) and the text of the
 * commit message file are given as values.
 */
module ReleaseHook {
  import opened Wrappers
  import opened PyStr

  /** The first line of `lines` that is not blank, stripped; empty when there is none. */
  function FirstSubject(lines: seq<string>): (r: string)
    ensures r == [] <==> forall i :: 0 <= i < |lines| ==> Strip(lines[i]) == []
  {
    if lines == [] then []
    else if Strip(lines[0]) != [] then Strip(lines[0])
    else
      var r := FirstSubject(lines[1..]);
      assert forall i :: 1 <= i < |lines| ==> lines[i] == lines[1..][i - 1];
      r
  }

  /** `_read_subject`, on the text of the commit message. */
  function ReadSubject(text: string): string {
    FirstSubject(SplitLines(text))
  }

  /** The subject is the stripped text of the first non-blank line; every line before it is blank. */
  lemma {:induction false} FirstSubjectIsFirst(lines: seq<string>)
    requires FirstSubject(lines) != []
    ensures exists i :: (0 <= i < |lines| && FirstSubject(lines) == Strip(lines[i])
      && forall j :: 0 <= j < i ==> Strip(lines[j]) == [])
  {
    if Strip(lines[0]) == [] {
      FirstSubjectIsFirst(lines[1..]);
      var i :| 0 <= i < |lines[1..]| && FirstSubject(lines[1..]) == Strip(lines[1..][i])
        && forall j :: 0 <= j < i ==> Strip(lines[1..][j]) == [];
      assert FirstSubject(lines) == Strip(lines[i + 1]);
      forall j | 0 <= j < i + 1 ensures Strip(lines[j]) == [] {
        if j > 0 {
          assert lines[j] == lines[1..][j - 1];
        }
      }
    } else {
      assert FirstSubject(lines) == Strip(lines[0]);
    }
  }

  /** `main`: the exit code, 0 to accept the commit and 1 to reject it. */
  function Main(argv: seq<string>, branch: Option<string>, messageText: string): (code: int)
    ensures code == 0 || code == 1
  {
    if argv == [] then 0
    else if branch != Some("main") then 0
    else
      var subject := ReadSubject(messageText);
      if !StartsWith(Lower(subject), "release") then 1 else 0
  }

  /**
   * A commit is rejected exactly when the hook was given a message file,
   * the branch is known to be `main`, and the subject does not start with
   * `release` in any case.
   */
  lemma MainRejects(argv: seq<string>, branch: Option<string>, messageText: string)
    ensures Main(argv, branch, messageText) == 1 <==>
      argv != [] && branch == Some("main") && !StartsWith(Lower(ReadSubject(messageText)), "release")
  {
  }

  /** On `main`, a message without a non-blank line has an empty subject and is rejected. */
  lemma BlankMessageRejected(argv: seq<string>, messageText: string)
    requires argv != [] && forall i :: 0 <= i < |SplitLines(messageText)| ==> Strip(SplitLines(messageText)[i]) == []
    ensures Main(argv, Some("main"), messageText) == 1
  {
    assert ReadSubject(messageText) == [];
    assert Lower([]) == [];
  }

  /**
   * On `main`, a message whose first line (already stripped) reads as
   * `release...` in any case is accepted, and one whose first line does
   * not is rejected, whatever follows.
   */
  lemma FirstLineDecides(argv: seq<string>, first: string, rest: string)
    requires argv != [] && first != [] && Strip(first) == first
    requires forall i :: 0 <= i < |first| ==> !IsLineBreak(first[i])
    ensures Main(argv, Some("main"), first + "\n" + rest) == if StartsWith(Lower(first), "release") then 0 else 1
  {
    SubjectOfFirstLine(first + "\n" + rest, first, rest);
  }

  /** A first line without surrounding blanks, ended by a newline, is the subject. */
  lemma SubjectOfFirstLine(text: string, first: string, rest: string)
    requires text == first + "\n" + rest && first != [] && Strip(first) == first
    requires forall i :: 0 <= i < |first| ==> !IsLineBreak(first[i])
    ensures ReadSubject(text) == first
  {
    FirstLineSplit(text, first, rest);
  }

  lemma FirstLineSplit(text: string, first: string, rest: string)
    requires text == first + "\n" + rest && first != []
    requires forall i :: 0 <= i < |first| ==> !IsLineBreak(first[i])
    ensures SplitLines(text) != [] && SplitLines(text)[0] == first
  {
    assert text[|first|] == '\n';
    assert forall j :: 0 <= j < |first| ==> text[j] == first[j];
    assert BreakIndex(text) == |first|;
    assert text[..|first|] == first;
  }
}
