/**
 * Comment and blank line counting for one source file. The lexer is a
 * foreign library: its choice and its token stream are inputs here.
 */
module LanguageAnalyzer {
  import opened PyStr

  /** One lexer token: whether its type is a comment type, and its text. */
  datatype Token = Token(isComment: bool, value: string)

  /**
   * What lexing produced: the plain-text fallback lexer (chosen when no
   * lexer fits the file), or the token stream of a real lexer.
   */
  datatype Lexing = TextFallback | Tokens(tokens: seq<Token>)

  /** Number of lines of `code` that are empty or whitespace only. */
  function BlankLines(code: string): (n: nat)
    ensures n <= |SplitLines(code)|
  {
    CountBlank(SplitLines(code))
  }

  /** A line the plain-text fallback treats as a comment. */
  predicate FallbackComment(line: string) {
    var t := LStrip(line);
    StartsWith(t, "#") || StartsWith(t, "//")
  }

  /** Number of lines that the plain-text fallback treats as comments. */
  function FallbackCommentCount(lines: seq<string>): (n: nat)
    ensures n <= |lines|
  {
    if lines == [] then 0
    else (if FallbackComment(lines[0]) then 1 else 0) + FallbackCommentCount(lines[1..])
  }

  /** The integers `a, a + 1, …, a + n - 1`. */
  function Range(a: int, n: nat): set<int> {
    if n == 0 then {} else Range(a, n - 1) + {a + n - 1}
  }

  lemma {:induction false} RangeMembers(a: int, n: nat)
    ensures forall l :: l in Range(a, n) <==> a <= l < a + n
  {
    if n > 0 { RangeMembers(a, n - 1); }
  }

  /**
   * Number of lines a token's text touches: one per newline, and one
   * more for text after the last newline.
   */
  function Span(v: string): nat {
    CountChar(v, '\n') + (if v != [] && v[|v| - 1] != '\n' then 1 else 0)
  }

  /**
   * Line on which token `k` starts: counting starts at 1 and every
   * newline of every earlier token, comment or not, moves it on.
   */
  function StartLine(ts: seq<Token>, k: nat): (line: nat)
    requires k <= |ts|
    ensures line >= 1
  {
    if k == 0 then 1 else StartLine(ts, k - 1) + CountChar(ts[k - 1].value, '\n')
  }

  /** Lines marked by the first `k` tokens: each comment token marks the lines it spans. */
  function CommentLineSet(ts: seq<Token>, k: nat): set<int>
    requires k <= |ts|
  {
    if k == 0 then {}
    else
      CommentLineSet(ts, k - 1)
      + (if ts[k - 1].isComment then Range(StartLine(ts, k - 1), Span(ts[k - 1].value)) else {})
  }

  /** The comment count the analyzer reports for `code` lexed as `lexing`. */
  function CommentCount(code: string, lexing: Lexing): nat {
    match lexing
    case TextFallback => FallbackCommentCount(SplitLines(code))
    case Tokens(ts) => |CommentLineSet(ts, |ts|)|
  }

  /** Number of lines covered by the parts of a token split at its newlines. */
  function PartsSpan(parts: seq<string>): nat
    requires parts != []
  {
    |parts| - 1 + (if parts[|parts| - 1] == [] then 0 else 1)
  }

  /**
   * Adds to `lines` the line of every part of a comment token, starting
   * at `current`, except an empty last part (the fragment after the
   * final newline).
   */
  method MarkParts(lines: set<int>, current: int, parts: seq<string>) returns (marked: set<int>)
    requires parts != []
    ensures marked == lines + Range(current, PartsSpan(parts))
  {
    marked := lines;
    ghost var span := PartsSpan(parts);
    ghost var count: nat := 0;
    for i := 0 to |parts|
      invariant count == (if i < span then i else span)
      invariant marked == lines + Range(current, count)
    {
      if i == |parts| - 1 && parts[i] == [] {
        continue;
      }
      marked := marked + {current + i};
      count := count + 1;
    }
  }

  /**
   * Walks the token stream with a line counter and collects the distinct
   * lines that hold comment text.
   */
  method CountCommentLines(ts: seq<Token>) returns (n: nat)
    ensures n == |CommentLineSet(ts, |ts|)|
  {
    var lines: set<int> := {};
    var current := 1;
    for k := 0 to |ts|
      invariant lines == CommentLineSet(ts, k)
      invariant current == StartLine(ts, k)
    {
      var value := ts[k].value;
      var parts := Split(value, '\n');
      SpanOfParts(value);
      if ts[k].isComment {
        lines := MarkParts(lines, current, parts);
      }
      if |parts| > 1 {
        current := current + |parts| - 1;
      }
    }
    n := |lines|;
  }

  /** How the parts of a token's text relate to the lines it spans. */
  lemma SpanOfParts(v: string)
    ensures var parts := Split(v, '\n');
      |parts| - 1 == CountChar(v, '\n') && Span(v) == PartsSpan(parts)
  {
    SplitLastEmpty(v, '\n');
  }

  /** `analyze`: the pair (comment lines, blank lines), in that order. */
  method Analyze(code: string, lexing: Lexing) returns (comments: nat, blanks: nat)
    ensures comments == CommentCount(code, lexing)
    ensures blanks == BlankLines(code)
  {
    blanks := BlankLines(code);
    match lexing
    case TextFallback =>
      comments := FallbackCommentCount(SplitLines(code));
    case Tokens(ts) =>
      comments := CountCommentLines(ts);
  }

  /** A text made only of newlines is all blank lines: "\n\n\n" has three. */
  lemma {:induction false} NewlinesAreBlank(s: string)
    requires forall i :: 0 <= i < |s| ==> s[i] == '\n'
    ensures BlankLines(s) == |s|
    decreases |s|
  {
    if s != [] {
      assert BreakIndex(s) == 0;
      assert AfterBreak(s, 0) == s[1..];
      assert SplitLines(s) == [[]] + SplitLines(s[1..]);
      assert SplitLines(s)[1..] == SplitLines(s[1..]);
      NewlinesAreBlank(s[1..]);
    }
  }

  /** No line is both blank and a fallback comment, so the two counts fit in the line count. */
  lemma {:induction false} BlankAndFallbackDisjoint(lines: seq<string>)
    ensures CountBlank(lines) + FallbackCommentCount(lines) <= |lines|
  {
    if lines != [] {
      var x := lines[0];
      if Strip(x) == [] {
        LStripAllSpace(x);
      }
      BlankAndFallbackDisjoint(lines[1..]);
    }
  }

  /** With the fallback lexer, blank and comment lines together never exceed the line count. */
  lemma FallbackCountsBounded(code: string)
    ensures BlankLines(code) + CommentCount(code, TextFallback) <= |SplitLines(code)|
  {
    BlankAndFallbackDisjoint(SplitLines(code));
  }

  /** The line counter only moves forward. */
  lemma {:induction false} StartLineMonotone(ts: seq<Token>, j: nat, k: nat)
    requires j <= k <= |ts|
    ensures StartLine(ts, j) <= StartLine(ts, k)
    decreases k - j
  {
    if j < k { StartLineMonotone(ts, j, k - 1); }
  }

  /**
   * Every marked line lies between 1 and the line after the last
   * newline of the stream.
   */
  lemma {:induction false} CommentLinesWithin(ts: seq<Token>, k: nat)
    requires k <= |ts|
    ensures CommentLineSet(ts, k) <= Range(1, StartLine(ts, k))
  {
    if k > 0 {
      CommentLinesWithin(ts, k - 1);
      var v := ts[k - 1].value;
      var before := StartLine(ts, k - 1);
      RangeMembers(1, before);
      RangeMembers(1, StartLine(ts, k));
      RangeMembers(before, Span(v));
      assert StartLine(ts, k) == before + CountChar(v, '\n');
      assert Span(v) <= CountChar(v, '\n') + 1;
      forall l | l in Range(1, before) ensures l in Range(1, StartLine(ts, k)) {
        assert 1 <= l < 1 + before;
      }
      forall l | l in Range(before, Span(v)) ensures l in Range(1, StartLine(ts, k)) {
        assert before <= l < before + Span(v);
      }
    }
  }

  /** A set of integers inside `Range(a, n)` has at most `n` elements. */
  lemma {:induction false} RangeSubsetSize(s: set<int>, a: int, n: nat)
    requires s <= Range(a, n)
    ensures |s| <= n
    decreases n
  {
    if n > 0 {
      var top := a + n - 1;
      RangeMembers(a, n);
      RangeMembers(a, n - 1);
      assert s - {top} <= Range(a, n - 1);
      RangeSubsetSize(s - {top}, a, n - 1);
    } else {
      assert s == {};
    }
  }

  /** `Range(a, n)` has exactly `n` elements. */
  lemma {:induction false} RangeSize(a: int, n: nat)
    ensures |Range(a, n)| == n
    decreases n
  {
    if n > 0 {
      RangeSize(a, n - 1);
      RangeMembers(a, n - 1);
    } else {
      assert Range(a, 0) == {};
    }
  }

  /** The token-stream comment count is at most one more than the number of newlines. */
  lemma CommentCountBounded(ts: seq<Token>)
    ensures |CommentLineSet(ts, |ts|)| <= StartLine(ts, |ts|)
  {
    CommentLinesWithin(ts, |ts|);
    StartLineMonotone(ts, 0, |ts|);
    RangeSubsetSize(CommentLineSet(ts, |ts|), 1, StartLine(ts, |ts|));
  }

  /**
   * A single comment token that uses "\n" as its only line break marks
   * exactly as many lines as `splitlines` finds in its text.
   */
  lemma OneCommentToken(v: string)
    requires OnlyNewlines(v)
    ensures CommentCount(v, Tokens([Token(true, v)])) == |SplitLines(v)|
  {
    var ts := [Token(true, v)];
    assert CommentLineSet(ts, 1) == Range(1, Span(v));
    RangeSize(1, Span(v));
    SplitLinesCount(v);
  }
}
