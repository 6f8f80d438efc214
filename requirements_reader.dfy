/**
 * The reader for pip `requirements.txt` files: one requirement per line,
 * comments dropped, extras removed, and the version taken from the first
 * comparison operator found (in a fixed order). Every dependency is a
 * production dependency. The file's lines are an input; opening and
 * reading the file is not modelled.
 */
module RequirementsReader {
  import opened Wrappers
  import opened PyStr
  import Data

  type Dependency = Data.Dependency

  /** The version operators, in the order they are tried. */
  const Operators: seq<string> := ["==", ">=", "<=", "~=", ">", "<", "!="]

  const SourceName := "requirements.txt"

  /**
   * The requirement text of one line: the line stripped, with everything
   * from the first `#` on removed and the rest stripped again; `None` for
   * lines that are blank or comments.
   */
  function CleanLine(line: string): Option<string> {
    var t := Strip(line);
    if t == [] || StartsWith(t, "#") then None
    else
      Some(if '#' in t then Strip(Split(t, '#')[0]) else t)
  }

  /**
   * Blank lines and comment lines give nothing; otherwise the text is
   * non-empty, holds no `#`, has no whitespace at its ends and begins the
   * stripped line.
   */
  lemma CleanLineSpec(line: string)
    ensures AllSpace(line) ==> CleanLine(line).None?
    ensures StartsWith(Strip(line), "#") ==> CleanLine(line).None?
    ensures var r := CleanLine(line);
      r.Some? ==> r.value != [] && '#' !in r.value && Strip(r.value) == r.value && StartsWith(Strip(line), r.value)
  {
    var t := Strip(line);
    if t != [] && !StartsWith(t, "#") {
      StripIdempotent(line);
      CleanLineText(t);
      assert CleanLine(line) == Some(if '#' in t then Strip(Split(t, '#')[0]) else t);
    } else {
      assert CleanLine(line).None?;
    }
  }

  /** The text kept from a stripped line that is neither blank nor a comment. */
  lemma CleanLineText(t: string)
    requires t != [] && !StartsWith(t, "#") && Strip(t) == t
    ensures var u := if '#' in t then Strip(Split(t, '#')[0]) else t;
      u != [] && '#' !in u && Strip(u) == u && StartsWith(t, u)
  {
    if '#' in t {
      assert !IsSpace(t[0]);
      assert t[0] != '#' by { assert t[..1] != "#"; }
      CommentCut(t);
    } else {
      assert t[..|t|] == t;
    }
  }

  /** Cutting a stripped text at its first `#` leaves a stripped prefix without `#`. */
  lemma CommentCut(t: string)
    requires t != [] && !IsSpace(t[0]) && t[0] != '#' && '#' in t
    ensures var u := Strip(Split(t, '#')[0]); u != [] && '#' !in u && Strip(u) == u && StartsWith(t, u)
  {
    var k := IndexOfChar(t, '#');
    SplitHead(t, '#');
    PrefixCut(t, k);
  }

  /** Stripping a non-empty prefix that starts with a non-space character. */
  lemma PrefixCut(t: string, k: nat)
    requires 0 < k <= |t| && !IsSpace(t[0]) && '#' !in t[..k]
    ensures var u := Strip(t[..k]); u != [] && '#' !in u && Strip(u) == u && StartsWith(t, u)
  {
    var p := t[..k];
    StripChars(p);
    StripIdempotent(p);
    assert p[0] == t[0];
    assert !AllSpace(p);
    StripNoLeading(p);
  }

  /** Cleaning a cleaned line changes nothing. */
  lemma CleanLineIdempotent(line: string)
    requires CleanLine(line).Some?
    ensures CleanLine(CleanLine(line).value) == CleanLine(line)
  {
    CleanLineSpec(line);
    var u := CleanLine(line).value;
    assert !StartsWith(u, "#") by {
      assert u[0] in u;
    }
    assert u != [] && '#' !in u && Strip(u) == u;
    assert CleanLine(u) == Some(u);
  }

  /**
   * The extras part removed: the text before the first `[` joined to the
   * text after the first `]`, then every remaining `]` dropped; unchanged
   * without a `[`.
   */
  function RemoveExtras(line: string): (r: string)
    ensures '[' in line ==> ']' !in r
    ensures '[' !in line ==> r == line
  {
    if '[' in line then
      var joined :=
        if ']' in line then line[..IndexOfChar(line, '[')] + line[IndexOfChar(line, ']') + 1..]
        else line;
      RemoveChar(joined, ']')
    else line
  }

  /** `name[extras]rest` loses exactly its bracketed extras. */
  lemma RemoveExtrasSpec(name: string, extras: string, rest: string)
    requires '[' !in name && ']' !in name && ']' !in extras && '[' !in rest && ']' !in rest
    ensures RemoveExtras(name + "[" + extras + "]" + rest) == name + rest
  {
    var line := name + "[" + extras + "]" + rest;
    assert line == name + ("[" + extras + "]" + rest);
    IndexOfCharAppend(name, "[" + extras + "]" + rest, '[');
    assert line == (name + "[" + extras) + ("]" + rest);
    IndexOfCharAppend(name + "[" + extras, "]" + rest, ']');
    var i := IndexOfChar(line, '[');
    var j := IndexOfChar(line, ']');
    assert line[..i] == name;
    assert line[j + 1..] == rest;
    assert ']' !in name + rest;
  }

  /** The first operator of `ops` that occurs in `line`. */
  function FirstOperator(line: string, ops: seq<string>): (r: Option<nat>)
    requires forall k :: 0 <= k < |ops| ==> ops[k] != []
    ensures r.Some? ==> r.value < |ops| && Contains(line, ops[r.value])
    ensures r.Some? ==> forall k :: 0 <= k < r.value ==> !Contains(line, ops[k])
    ensures r.None? ==> forall k :: 0 <= k < |ops| ==> !Contains(line, ops[k])
  {
    if ops == [] then None
    else if Contains(line, ops[0]) then Some(0)
    else
      var r := FirstOperator(line, ops[1..]);
      if r.Some? then Some(r.value + 1) else None
  }

  /**
   * The requirement split at the first occurrence of `op`: the name is the
   * stripped text before it, lower-cased, and the version is `op` followed
   * by the stripped text after it.
   */
  function WithOperator(l: string, op: string): (d: Dependency)
    requires op != [] && Contains(l, op)
    ensures var i := Find(l, op).value;
      d == Data.Dependency(Lower(Strip(l[..i])), op + Strip(l[i + |op|..]), "prod", SourceName)
  {
    var parts := SplitOnce(l, op);
    var name := Strip(parts[0]);
    var version := if parts[1] != [] then op + Strip(parts[1]) else op;
    Data.Dependency(Lower(name), version, "prod", SourceName)
  }

  /** `_parse_requirement_line`. */
  function ParseRequirementLine(line: string): (r: Option<Dependency>)
    ensures r.Some? <==> line != []
    ensures r.Some? ==> r.value.category == "prod" && r.value.sourceFile == SourceName
  {
    if line == [] then None
    else
      var l := RemoveExtras(line);
      match FirstOperator(l, Operators)
      case Some(k) => Some(WithOperator(l, Operators[k]))
      case None =>
        Some(Data.Dependency(Lower(l), "*", "prod", SourceName))
  }

  /** Without an operator the whole line, lower-cased, is the name and any version is accepted. */
  lemma ParseNoOperator(line: string)
    requires line != []
    requires forall k :: 0 <= k < |Operators| ==> !Contains(RemoveExtras(line), Operators[k])
    ensures ParseRequirementLine(line) == Some(Data.Dependency(Lower(RemoveExtras(line)), "*", "prod", SourceName))
  {
    assert FirstOperator(RemoveExtras(line), Operators).None?;
  }

  /**
   * With an operator, the first one in the fixed order that occurs splits
   * the line: the name is the stripped text before it, and the version is
   * the operator followed by the stripped text after it.
   */
  lemma ParseFirstOperator(line: string, k: nat)
    requires line != [] && k < |Operators|
    requires Contains(RemoveExtras(line), Operators[k])
    requires forall j :: 0 <= j < k ==> !Contains(RemoveExtras(line), Operators[j])
    ensures ParseRequirementLine(line) == Some(WithOperator(RemoveExtras(line), Operators[k]))
  {
    var l := RemoveExtras(line);
    assert FirstOperator(l, Operators) == Some(k);
  }

  /** The characters that make up the operators. */
  predicate OperatorChar(c: char) {
    c == '=' || c == '<' || c == '>' || c == '~' || c == '!'
  }

  /** A stretch of operator characters surrounded by other text can only hold an operator inside itself. */
  lemma OccurrenceInside(name: string, op: string, rest: string, o: string, k: int)
    requires forall c :: c in name ==> !OperatorChar(c)
    requires forall c :: c in rest ==> !OperatorChar(c)
    requires o != [] && forall c :: c in o ==> OperatorChar(c)
    requires OccursAt(name + op + rest, o, k)
    ensures |name| <= k && k + |o| <= |name| + |op| && op[k - |name|..k - |name| + |o|] == o
  {
    var s := name + op + rest;
    var last := k + |o| - 1;
    assert s[k] == o[0] && s[last] == o[|o| - 1] by {
      assert s[k..k + |o|][0] == o[0];
      assert s[k..k + |o|][|o| - 1] == o[|o| - 1];
    }
    assert OperatorChar(s[k]) && OperatorChar(s[last]) by {
      assert o[0] in o && o[|o| - 1] in o;
    }
    assert forall i :: 0 <= i < |name| ==> !OperatorChar(s[i]) by {
      forall i | 0 <= i < |name| ensures !OperatorChar(s[i]) {
        assert s[i] == name[i] && name[i] in name;
      }
    }
    assert forall i :: |name| + |op| <= i < |s| ==> !OperatorChar(s[i]) by {
      forall i | |name| + |op| <= i < |s| ensures !OperatorChar(s[i]) {
        assert s[i] == rest[i - |name| - |op|] && rest[i - |name| - |op|] in rest;
      }
    }
    var a := k - |name|;
    forall i | 0 <= i < |o| ensures op[a..a + |o|][i] == o[i] {
      assert s[k + i] == s[k..k + |o|][i];
      assert s[k + i] == op[a + i];
    }
  }

  /** No operator tried earlier occurs inside a later one. */
  lemma OperatorsNotNested(j: nat, k: nat, a: nat)
    requires j < k < |Operators| && a + |Operators[j]| <= |Operators[k]|
    ensures Operators[k][a..a + |Operators[j]|] != Operators[j]
  {
    var o, op := Operators[j], Operators[k];
    assert o == Operators[j];
    if |o| == 2 {
      assert op[..2] == op;
    } else {
      assert op[a..a + 1] == [op[a]];
    }
  }

  /** In `name + op + version`, with no operator characters around it, `op` is the operator chosen. */
  lemma FirstOperatorIs(name: string, k: nat, version: string)
    requires k < |Operators|
    requires forall c :: c in name ==> !OperatorChar(c)
    requires forall c :: c in version ==> !OperatorChar(c)
    ensures FirstOperator(name + Operators[k] + version, Operators) == Some(k)
    ensures Find(name + Operators[k] + version, Operators[k]) == Some(|name|)
  {
    var op := Operators[k];
    var line := name + op + version;
    forall j | 0 <= j < |Operators| && Contains(line, Operators[j]) ensures k <= j {
      var o := Operators[j];
      var at := Find(line, o).value;
      OccurrenceInside(name, op, version, o, at);
      if j < k {
        OperatorsNotNested(j, k, at - |name|);
      }
    }
    assert OccursAt(line, op, |name|) by {
      assert line[|name|..|name| + |op|] == op;
    }
    var at := Find(line, op).value;
    OccurrenceInside(name, op, version, op, at);
  }

  /**
   * A requirement written as `name`, an operator and a version reads back
   * as that name and `operator + version`, provided neither part uses
   * operator characters or brackets and neither has whitespace at its ends.
   */
  lemma ParseRoundTrip(name: string, k: nat, version: string)
    requires k < |Operators|
    requires name != [] && !IsSpace(name[0]) && !IsSpace(name[|name| - 1]) && Lower(name) == name
    requires version == [] || (!IsSpace(version[0]) && !IsSpace(version[|version| - 1]))
    requires forall c :: c in name ==> !OperatorChar(c) && c != '['
    requires forall c :: c in version ==> !OperatorChar(c) && c != '['
    ensures ParseRequirementLine(name + Operators[k] + version)
         == Some(Data.Dependency(name, Operators[k] + version, "prod", SourceName))
  {
    var op := Operators[k];
    var line := name + op + version;
    assert '[' !in line;
    FirstOperatorIs(name, k, version);
    assert line[..|name|] == name;
    assert line[|name| + |op|..] == version;
    StripNoop(name);
    StripNoop(version);
  }

  /** The dependency a file line contributes, if any. */
  function LineDeps(line: string): seq<Dependency> {
    var cleaned := CleanLine(line);
    if cleaned.Some? && ParseRequirementLine(cleaned.value).Some? then [ParseRequirementLine(cleaned.value).value] else []
  }

  /** A line contributes exactly when it is neither blank nor a comment; blank and comment lines contribute nothing. */
  lemma LineDepsSpec(line: string)
    ensures |LineDeps(line)| <= 1
    ensures LineDeps(line) == [] <==> CleanLine(line).None?
    ensures AllSpace(line) || StartsWith(Strip(line), "#") ==> LineDeps(line) == []
  {
    CleanLineSpec(line);
  }

  /** The dependencies of the whole file, in line order. */
  function FileDeps(lines: seq<string>): (r: seq<Dependency>)
    ensures |r| <= |lines|
  {
    if lines == [] then [] else FileDeps(lines[..|lines| - 1]) + LineDeps(lines[|lines| - 1])
  }

  /** The dependencies of the first `i + 1` lines: those of the first `i`, then those of line `i`. */
  lemma FileDepsStep(lines: seq<string>, i: nat)
    requires i < |lines|
    ensures FileDeps(lines[..i + 1]) == FileDeps(lines[..i]) + LineDeps(lines[i])
  {
    assert lines[..i + 1][..i] == lines[..i];
  }

  /** `read_project_info`, as a value. */
  function RequirementsInfo(lines: seq<string>, fileName: string): Data.ProjectFileInfo {
    var deps := FileDeps(lines);
    Data.ProjectFileInfo(
      None,
      if deps == [] then None
      else Some(Data.DependencyInfo(deps, |deps|, 0, 0, |deps|, [SourceName], [])),
      [fileName])
  }

  /** Every dependency of the file comes from one of its requirement lines and is a production dependency. */
  lemma {:induction false} FileDepsMembers(lines: seq<string>, d: Dependency)
    ensures d in FileDeps(lines) <==> exists i :: 0 <= i < |lines| && d in LineDeps(lines[i])
  {
    if lines != [] {
      var init := lines[..|lines| - 1];
      assert FileDeps(lines) == FileDeps(init) + LineDeps(lines[|lines| - 1]);
      FileDepsMembers(init, d);
      assert (exists i :: 0 <= i < |init| && d in LineDeps(init[i]))
          <==> (exists i :: 0 <= i < |lines| - 1 && d in LineDeps(lines[i])) by {
        forall i | 0 <= i < |init| ensures init[i] == lines[i] {}
      }
    }
  }

  /** Every dependency of the file is a production dependency read from `requirements.txt`. */
  lemma FileDepsProduction(lines: seq<string>, d: Dependency)
    requires d in FileDeps(lines)
    ensures d.category == "prod" && d.sourceFile == SourceName
  {
    FileDepsMembers(lines, d);
    var i :| 0 <= i < |lines| && d in LineDeps(lines[i]);
  }

  /** Every dependency read is a production one, so the production count is the total. */
  lemma {:induction false} AllProduction(lines: seq<string>)
    ensures Data.CountCategory(FileDeps(lines), "prod") == |FileDeps(lines)|
  {
    if lines != [] {
      var init := lines[..|lines| - 1];
      AllProduction(init);
      Data.CountCategoryAppend(FileDeps(init), LineDeps(lines[|lines| - 1]), "prod");
    }
  }

  /**
   * The file's record: no project name, its own file name as the only
   * source file, and dependency details exactly when some line holds a
   * requirement, in which case every dependency counts as production.
   */
  lemma RequirementsInfoSpec(lines: seq<string>, fileName: string)
    ensures var info := RequirementsInfo(lines, fileName);
      info.name.None? && info.sourceFiles == [fileName]
      && (info.dependencies.Some? <==> exists i :: 0 <= i < |lines| && CleanLine(lines[i]).Some?)
      && (info.dependencies.Some? ==>
            var di := info.dependencies.value;
            di.dependencies == FileDeps(lines) && di.sources == [SourceName] && di.conflicts == []
            && di.prodCount == Data.CountCategory(di.dependencies, "prod") == di.totalCount
            && di.devCount == Data.CountCategory(di.dependencies, "dev") == 0
            && di.optionalCount == Data.CountCategory(di.dependencies, "optional") == 0)
  {
    var deps := FileDeps(lines);
    AllProduction(lines);
    Data.CategoryCounts(deps);
    if exists i :: 0 <= i < |lines| && CleanLine(lines[i]).Some? {
      var i :| 0 <= i < |lines| && CleanLine(lines[i]).Some?;
      LineDepsSpec(lines[i]);
      FileDepsMembers(lines, LineDeps(lines[i])[0]);
    }
    if deps != [] {
      FileDepsMembers(lines, deps[0]);
      var i :| 0 <= i < |lines| && deps[0] in LineDeps(lines[i]);
      LineDepsSpec(lines[i]);
    }
  }

  /** The body of the line loop: the dependency one line adds, if any. */
  method LineDependency(line: string) returns (deps: seq<Dependency>)
    ensures deps == LineDeps(line)
  {
    var cleaned := Strip(line);
    if cleaned == [] || StartsWith(cleaned, "#") {
      return [];
    }
    if '#' in cleaned {
      cleaned := Strip(Split(cleaned, '#')[0]);
    }
    var dep := ParseRequirementLine(cleaned);
    deps := if dep.Some? then [dep.value] else [];
  }

  /** `read_project_info`, over the lines of the file. */
  method ReadProjectInfo(lines: seq<string>, fileName: string) returns (info: Data.ProjectFileInfo)
    ensures info == RequirementsInfo(lines, fileName)
  {
    var deps: seq<Dependency> := [];
    for i := 0 to |lines|
      invariant deps == FileDeps(lines[..i])
    {
      var lineDeps := LineDependency(lines[i]);
      FileDepsStep(lines, i);
      deps := deps + lineDeps;
    }
    assert lines[..|lines|] == lines;
    var depInfo: Option<Data.DependencyInfo> := None;
    if deps != [] {
      depInfo := Some(Data.DependencyInfo(deps, |deps|, 0, 0, |deps|, [SourceName], []));
    }
    info := Data.ProjectFileInfo(None, depInfo, [fileName]);
  }
}
