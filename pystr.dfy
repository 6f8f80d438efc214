/**
 * The few Python `str` operations the modelled code relies on, over
 * `string == seq<char>`. Each is defined by recursion and characterised
 * by its contract, so the modules that use them can reason from the
 * contract alone.
 */
module PyStr {
  import opened Wrappers

  /** The characters for which Python's `str.isspace()` holds. */
  predicate IsSpace(c: char) {
    c == ' ' || ('\t' <= c <= '\r') || ('\U{1c}' <= c <= '\U{1f}') || c == '\U{85}' || c == '\U{a0}'
    || c == '\U{1680}' || ('\U{2000}' <= c <= '\U{200a}') || c == '\U{2028}' || c == '\U{2029}'
    || c == '\U{202f}' || c == '\U{205f}' || c == '\U{3000}'
  }

  /** The line boundaries recognised by Python's `str.splitlines()`. */
  predicate IsLineBreak(c: char) {
    ('\n' <= c <= '\r') || ('\U{1c}' <= c <= '\U{1e}') || c == '\U{85}' || c == '\U{2028}' || c == '\U{2029}'
  }

  predicate AllSpace(s: string) {
    forall i :: 0 <= i < |s| ==> IsSpace(s[i])
  }

  /** `s.lstrip()`: the longest suffix of `s` that does not start with whitespace. */
  function LStrip(s: string): (r: string)
    ensures |r| <= |s| && r == s[|s| - |r|..]
    ensures r == [] || !IsSpace(r[0])
    ensures AllSpace(s[..|s| - |r|])
  {
    if s != [] && IsSpace(s[0]) then
      var r := LStrip(s[1..]);
      LStripStep(s, r);
      r
    else s
  }

  lemma LStripStep(s: string, r: string)
    requires s != [] && IsSpace(s[0])
    requires |r| <= |s| - 1 && r == s[1..][|s| - 1 - |r|..] && AllSpace(s[1..][..|s| - 1 - |r|])
    ensures r == s[|s| - |r|..] && AllSpace(s[..|s| - |r|])
  {
    var n := |s| - |r|;
    assert s[..n] == [s[0]] + s[1..][..n - 1];
    forall i | 0 <= i < n ensures IsSpace(s[..n][i]) {
      if i > 0 { assert s[..n][i] == s[1..][..n - 1][i - 1]; }
    }
  }

  /** `s.rstrip()`: the longest prefix of `s` that does not end with whitespace. */
  function RStrip(s: string): (r: string)
    ensures |r| <= |s| && r == s[..|r|]
    ensures r == [] || !IsSpace(r[|r| - 1])
    ensures AllSpace(s[|r|..])
  {
    if s != [] && IsSpace(s[|s| - 1]) then
      var r := RStrip(s[..|s| - 1]);
      RStripStep(s, r);
      r
    else s
  }

  lemma RStripStep(s: string, r: string)
    requires s != [] && IsSpace(s[|s| - 1])
    requires |r| <= |s| - 1 && r == s[..|s| - 1][..|r|] && AllSpace(s[..|s| - 1][|r|..])
    ensures r == s[..|r|] && AllSpace(s[|r|..])
  {
    var n := |r|;
    assert s[n..] == s[..|s| - 1][n..] + [s[|s| - 1]];
    forall i | 0 <= i < |s| - n ensures IsSpace(s[n..][i]) {
      if i < |s| - 1 - n { assert s[n..][i] == s[..|s| - 1][n..][i]; }
    }
  }

  /** `s.strip()`: empty exactly when `s` is all whitespace. */
  function Strip(s: string): (r: string)
    ensures |r| <= |s|
    ensures r == [] || (!IsSpace(r[0]) && !IsSpace(r[|r| - 1]))
    ensures r == [] <==> AllSpace(s)
  {
    StripEmptyIffSpace(s);
    StripEnds(s);
    RStrip(LStrip(s))
  }

  lemma StripEnds(s: string)
    ensures var r := RStrip(LStrip(s)); r == [] || (!IsSpace(r[0]) && !IsSpace(r[|r| - 1]))
  {
    var l := LStrip(s);
    var r := RStrip(l);
    if r != [] {
      assert r[0] == l[0];
    }
  }

  lemma StripEmptyIffSpace(s: string)
    ensures RStrip(LStrip(s)) == [] <==> AllSpace(s)
  {
    var l := LStrip(s);
    var r := RStrip(l);
    if l != [] {
      assert !IsSpace(s[|s| - |l|]);
      assert !IsSpace(l[0]);
    } else {
      assert s[..|s|] == s;
    }
  }

  /** A string without whitespace at either end is its own `strip()`. */
  lemma StripNoop(s: string)
    requires s == [] || (!IsSpace(s[0]) && !IsSpace(s[|s| - 1]))
    ensures Strip(s) == s
  {
    assert LStrip(s) == s;
  }

  /** Without leading whitespace, stripping only cuts the end. */
  lemma StripNoLeading(s: string)
    requires s == [] || !IsSpace(s[0])
    ensures Strip(s) == s[..|Strip(s)|]
  {
    assert LStrip(s) == s;
  }

  /** Stripping keeps only characters of the original. */
  lemma StripChars(s: string)
    ensures forall x :: x in Strip(s) ==> x in s
  {
    var l := LStrip(s);
    var r := RStrip(l);
    assert forall x :: x in r ==> x in l;
    assert forall x :: x in l ==> x in s;
  }

  lemma StripIdempotent(s: string)
    ensures Strip(Strip(s)) == Strip(s)
  {
    StripNoop(Strip(s));
  }

  /** `s.rstrip(c)` for a single character `c`. */
  function RStripChar(s: string, c: char): (r: string)
    ensures |r| <= |s| && r == s[..|r|]
    ensures r == [] || r[|r| - 1] != c
    ensures forall i :: |r| <= i < |s| ==> s[i] == c
  {
    if s != [] && s[|s| - 1] == c then RStripChar(s[..|s| - 1], c) else s
  }

  function LowerChar(c: char): char {
    if 'A' <= c <= 'Z' then (c as int + 32) as char else c
  }

  /** `s.lower()` on ASCII letters; other characters are kept. */
  function Lower(s: string): (r: string)
    ensures |r| == |s|
    ensures forall i :: 0 <= i < |s| ==> r[i] == LowerChar(s[i])
  {
    seq(|s|, i requires 0 <= i < |s| => LowerChar(s[i]))
  }

  predicate StartsWith(s: string, prefix: string) {
    |prefix| <= |s| && s[..|prefix|] == prefix
  }

  predicate OccursAt(s: string, sub: string, k: int) {
    0 <= k && k + |sub| <= |s| && s[k..k + |sub|] == sub
  }

  /** The first index at or after `from` where `sub` occurs in `s`. */
  function FindFrom(s: string, sub: string, from: nat): (r: Option<nat>)
    decreases |s| - from
    ensures r.Some? ==> from <= r.value && OccursAt(s, sub, r.value)
    ensures r.Some? ==> forall k :: from <= k < r.value ==> !OccursAt(s, sub, k)
    ensures r.None? ==> forall k :: from <= k ==> !OccursAt(s, sub, k)
  {
    if from + |sub| > |s| then None
    else if s[from..from + |sub|] == sub then Some(from)
    else FindFrom(s, sub, from + 1)
  }

  /** `s.find(sub)`, with `None` for -1. */
  function Find(s: string, sub: string): (r: Option<nat>)
    ensures r.Some? ==> OccursAt(s, sub, r.value) && forall k :: 0 <= k < r.value ==> !OccursAt(s, sub, k)
    ensures r.None? ==> forall k :: !OccursAt(s, sub, k)
  {
    FindFrom(s, sub, 0)
  }

  /** `sub in s`. */
  predicate Contains(s: string, sub: string) {
    Find(s, sub).Some?
  }

  /**
   * `s.split(sep, 1)`: one part when `sep` does not occur, otherwise the
   * text before its first occurrence and the text after it.
   */
  function SplitOnce(s: string, sep: string): (r: seq<string>)
    requires sep != []
    ensures |r| == 1 <==> !Contains(s, sep)
    ensures 1 <= |r| <= 2 && !Contains(r[0], sep)
    ensures |r| == 1 ==> r[0] == s
    ensures |r| == 2 ==> s == r[0] + sep + r[1]
  {
    match Find(s, sep)
    case None => [s]
    case Some(k) =>
      var before := s[..k];
      assert forall j :: OccursAt(before, sep, j) ==> OccursAt(s, sep, j) by {
        forall j | OccursAt(before, sep, j) ensures OccursAt(s, sep, j) {
          assert s[j..j + |sep|] == before[j..j + |sep|];
        }
      }
      assert forall j :: !OccursAt(before, sep, j);
      assert s == before + sep + s[k + |sep|..];
      [before, s[k + |sep|..]]
  }

  function CountChar(s: string, c: char): (n: nat)
    ensures n <= |s|
    ensures n == 0 <==> c !in s
  {
    if s == [] then 0 else (if s[0] == c then 1 else 0) + CountChar(s[1..], c)
  }

  /** `sep.join(parts)`. */
  function Join(parts: seq<string>, sep: string): string {
    if |parts| == 0 then []
    else if |parts| == 1 then parts[0]
    else parts[0] + sep + Join(parts[1..], sep)
  }

  function IndexOfChar(s: string, c: char): (k: nat)
    requires c in s
    ensures k < |s| && s[k] == c && c !in s[..k]
  {
    if s[0] == c then 0 else
      assert c in s[1..] by { assert s == [s[0]] + s[1..]; }
      var k := IndexOfChar(s[1..], c);
      assert s[..k + 1] == [s[0]] + s[1..][..k];
      k + 1
  }

  lemma {:induction false} CountCharAppend(a: string, b: string, c: char)
    ensures CountChar(a + b, c) == CountChar(a, c) + CountChar(b, c)
  {
    if a != [] {
      assert (a + b)[1..] == a[1..] + b;
      CountCharAppend(a[1..], b, c);
    } else {
      assert a + b == b;
    }
  }

  /** The first `c` of `a + b`, when `a` has none, is the first `c` of `b`. */
  lemma {:induction false} IndexOfCharAppend(a: string, b: string, c: char)
    requires c !in a && c in b
    ensures IndexOfChar(a + b, c) == |a| + IndexOfChar(b, c)
  {
    if a == [] {
      assert a + b == b;
    } else {
      assert (a + b)[0] == a[0] && a[0] in a;
      assert (a + b)[1..] == a[1..] + b;
      IndexOfCharAppend(a[1..], b, c);
    }
  }

  /** `s.split(c)` for a one-character separator: the parts between the separators. */
  function Split(s: string, c: char): (r: seq<string>)
    decreases |s|
    ensures |r| >= 1
  {
    if c in s then
      var k := IndexOfChar(s, c);
      [s[..k]] + Split(s[k + 1..], c)
    else [s]
  }

  /** `s.split(c)` has one part more than `s` has separators, and no part holds one. */
  lemma {:induction false} SplitParts(s: string, c: char)
    ensures var r := Split(s, c);
      |r| == CountChar(s, c) + 1 && forall i :: 0 <= i < |r| ==> c !in r[i]
    decreases |s|
  {
    if c in s {
      var k := IndexOfChar(s, c);
      var rest := Split(s[k + 1..], c);
      SplitParts(s[k + 1..], c);
      assert Split(s, c) == [s[..k]] + rest;
      SplitCons(s, c, k, rest);
    }
  }

  lemma SplitCons(s: string, c: char, k: nat, rest: seq<string>)
    requires k < |s| && s[k] == c && c !in s[..k]
    requires |rest| == CountChar(s[k + 1..], c) + 1
    requires forall i :: 0 <= i < |rest| ==> c !in rest[i]
    ensures var r := [s[..k]] + rest;
      |r| == CountChar(s, c) + 1 && forall i :: 0 <= i < |r| ==> c !in r[i]
  {
    var r := [s[..k]] + rest;
    assert s == s[..k] + ([c] + s[k + 1..]);
    CountCharAppend(s[..k], [c] + s[k + 1..], c);
    CountCharAppend([c], s[k + 1..], c);
    assert CountChar([c], c) == 1;
    forall i | 0 <= i < |r| ensures c !in r[i] {
      if i > 0 { assert r[i] == rest[i - 1]; }
    }
  }

  /** Joining the parts of `s.split(c)` with `c` gives back `s`. */
  lemma {:induction false} JoinSplit(s: string, c: char)
    ensures Join(Split(s, c), [c]) == s
    decreases |s|
  {
    if c in s {
      var k := IndexOfChar(s, c);
      var rest := Split(s[k + 1..], c);
      JoinSplit(s[k + 1..], c);
      var r := [s[..k]] + rest;
      assert Split(s, c) == r;
      assert r[1..] == rest;
      assert s == s[..k] + [c] + s[k + 1..];
    }
  }

  /** Splitting the `c`-joined text of `c`-free parts gives the parts back. */
  lemma {:induction false} SplitJoin(parts: seq<string>, c: char)
    requires |parts| >= 1 && forall i :: 0 <= i < |parts| ==> c !in parts[i]
    ensures Split(Join(parts, [c]), c) == parts
  {
    if |parts| > 1 {
      var s := Join(parts, [c]);
      var t := Join(parts[1..], [c]);
      assert s == parts[0] + [c] + t;
      var k := |parts[0]|;
      assert s[k] == c;
      assert s[..k] == parts[0];
      assert IndexOfChar(s, c) == k;
      assert s[k + 1..] == t;
      SplitJoin(parts[1..], c);
    }
  }

  /** The first part of `s.split(c)` is the text before the first `c`. */
  lemma SplitHead(s: string, c: char)
    ensures Split(s, c)[0] == if c in s then s[..IndexOfChar(s, c)] else s
  {
  }

  /** `s.replace(sub, "")`, scanning left to right. */
  function RemoveAll(s: string, sub: string): (r: string)
    requires sub != []
    decreases |s|
    ensures |r| <= |s|
    ensures !Contains(s, sub) ==> r == s
  {
    match Find(s, sub)
    case None => s
    case Some(k) => s[..k] + RemoveAll(s[k + |sub|..], sub)
  }

  /** `s.replace(c, "")` for a single character `c`. */
  function RemoveChar(s: string, c: char): (r: string)
    ensures forall x :: x in r <==> x in s && x != c
    ensures c !in s ==> r == s
  {
    if s == [] then []
    else
      assert s == [s[0]] + s[1..];
      (if s[0] == c then [] else [s[0]]) + RemoveChar(s[1..], c)
  }

  /** The last part of `s.split(c)` is empty exactly when `s` is empty or ends with `c`. */
  lemma {:induction false} SplitLastEmpty(s: string, c: char)
    ensures var r := Split(s, c); r[|r| - 1] == [] <==> (s == [] || s[|s| - 1] == c)
    decreases |s|
  {
    var r := Split(s, c);
    if c in s {
      var k := IndexOfChar(s, c);
      var tail := s[k + 1..];
      var rest := Split(tail, c);
      assert r == [s[..k]] + rest;
      assert r[|r| - 1] == rest[|rest| - 1];
      SplitLastEmpty(tail, c);
      if tail != [] { assert tail[|tail| - 1] == s[|s| - 1]; }
    } else {
      assert r == [s];
    }
  }

  /** Index of the first line break in `s`, or `|s|` when there is none. */
  function BreakIndex(s: string): (k: nat)
    ensures k <= |s|
    ensures forall j :: 0 <= j < k ==> !IsLineBreak(s[j])
    ensures k < |s| ==> IsLineBreak(s[k])
  {
    if s == [] || IsLineBreak(s[0]) then 0 else 1 + BreakIndex(s[1..])
  }

  /** The text after the line break at `k`, treating "\r\n" as one break. */
  function AfterBreak(s: string, k: nat): string
    requires k < |s|
  {
    if s[k] == '\r' && k + 1 < |s| && s[k + 1] == '\n' then s[k + 2..] else s[k + 1..]
  }

  /**
   * `s.splitlines()`: the lines of `s` without their terminators; a
   * terminator at the very end does not start another line.
   */
  function SplitLines(s: string): (r: seq<string>)
    decreases |s|
    ensures |r| <= |s|
    ensures r == [] <==> s == []
  {
    if s == [] then []
    else
      var k := BreakIndex(s);
      if k == |s| then [s] else [s[..k]] + SplitLines(AfterBreak(s, k))
  }

  /** No line of `s.splitlines()` holds a line break. */
  lemma {:induction false} SplitLinesNoBreaks(s: string)
    ensures forall i, j :: 0 <= i < |SplitLines(s)| && 0 <= j < |SplitLines(s)[i]| ==> !IsLineBreak(SplitLines(s)[i][j])
    decreases |s|
  {
    if s != [] {
      var k := BreakIndex(s);
      if k < |s| {
        var rest := SplitLines(AfterBreak(s, k));
        SplitLinesNoBreaks(AfterBreak(s, k));
        var r := [s[..k]] + rest;
        assert SplitLines(s) == r;
        forall i, j | 0 <= i < |r| && 0 <= j < |r[i]| ensures !IsLineBreak(r[i][j]) {
          if i > 0 {
            assert r[i] == rest[i - 1];
            assert !IsLineBreak(rest[i - 1][j]);
          } else {
            assert r[0] == s[..k];
            assert r[0][j] == s[j];
          }
        }
      }
    }
  }

  /** `s` uses "\n" as its only line break. */
  predicate OnlyNewlines(s: string) {
    forall i :: 0 <= i < |s| && IsLineBreak(s[i]) ==> s[i] == '\n'
  }

  /**
   * With "\n" as the only line break, `s.splitlines()` has one line per
   * newline, plus one for text after the last newline.
   */
  lemma {:induction false} SplitLinesCount(s: string)
    requires OnlyNewlines(s)
    ensures |SplitLines(s)| == CountChar(s, '\n') + (if s != [] && s[|s| - 1] != '\n' then 1 else 0)
    decreases |s|
  {
    if s != [] {
      var k := BreakIndex(s);
      NoNewlineBefore(s, k);
      if k == |s| {
        assert s[..k] == s;
      } else {
        var rest := s[k + 1..];
        SplitLinesStep(s, k);
        SplitLinesCount(rest);
        if rest != [] { assert s[|s| - 1] == rest[|rest| - 1]; }
      }
    }
  }

  lemma NoNewlineBefore(s: string, k: nat)
    requires k <= |s| && forall j :: 0 <= j < k ==> !IsLineBreak(s[j])
    ensures CountChar(s[..k], '\n') == 0
  {
    assert forall j :: 0 <= j < k ==> s[..k][j] != '\n';
  }

  lemma SplitLinesStep(s: string, k: nat)
    requires OnlyNewlines(s) && s != [] && k == BreakIndex(s) && k < |s|
    requires CountChar(s[..k], '\n') == 0
    ensures OnlyNewlines(s[k + 1..])
    ensures |SplitLines(s)| == 1 + |SplitLines(s[k + 1..])|
    ensures CountChar(s, '\n') == 1 + CountChar(s[k + 1..], '\n')
  {
    var rest := s[k + 1..];
    assert s[k] == '\n';
    assert AfterBreak(s, k) == rest;
    assert CountChar(s, '\n') == 1 + CountChar(rest, '\n') by {
      assert s == s[..k] + ([s[k]] + rest);
      CountCharAppend(s[..k], [s[k]] + rest, '\n');
      CountCharAppend([s[k]], rest, '\n');
      assert CountChar([s[k]], '\n') == 1;
    }
    assert |SplitLines(s)| == 1 + |SplitLines(rest)|;
    forall i | 0 <= i < |rest| && IsLineBreak(rest[i]) ensures rest[i] == '\n' {
      assert rest[i] == s[k + 1 + i];
    }
  }

  /** A text that is whitespace only left-strips to nothing. */
  lemma LStripAllSpace(s: string)
    requires AllSpace(s)
    ensures LStrip(s) == []
  {
  }

  /** Number of elements of `xs` that are all whitespace. */
  function CountBlank(xs: seq<string>): (n: nat)
    ensures n <= |xs|
  {
    if xs == [] then 0 else (if Strip(xs[0]) == [] then 1 else 0) + CountBlank(xs[1..])
  }

  /** Python's `s[:k]`, where a negative `k` counts from the end. */
  function Take<T>(s: seq<T>, k: int): (r: seq<T>)
    ensures 0 <= k ==> r == s[..if k < |s| then k else |s|]
    ensures k < 0 ==> r == s[..if |s| + k < 0 then 0 else |s| + k]
  {
    if 0 <= k then s[..if k < |s| then k else |s|]
    else s[..if |s| + k < 0 then 0 else |s| + k]
  }
}
