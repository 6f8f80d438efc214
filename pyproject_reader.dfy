/**
 * The reader for `pyproject.toml`: the project table (or the literal
 * `"[project]"` table some malformed files have), its name, and the PEP 508
 * strings of its `dependencies` list and of every `optional-dependencies`
 * group. The parsed TOML document is an input; reading and decoding the
 * file is not modelled.
 */
module PyProjectReader {
  import opened Wrappers
  import opened PyStr
  import Json
  import Dict
  import Data

  type Dependency = Data.Dependency

  const SourceName := "pyproject.toml"

  /** The characters of a distribution name: `[a-zA-Z0-9._-]`. */
  predicate NameChar(c: char) {
    'a' <= c <= 'z' || 'A' <= c <= 'Z' || '0' <= c <= '9' || c == '.' || c == '_' || c == '-'
  }

  /** The length of the longest prefix of `s` made of name characters. */
  function NameLength(s: string): (n: nat)
    ensures n <= |s|
    ensures forall i :: 0 <= i < n ==> NameChar(s[i])
    ensures n == |s| || !NameChar(s[n])
  {
    if s == [] || !NameChar(s[0]) then 0 else 1 + NameLength(s[1..])
  }

  /** `s.split(";", maxsplit=1)[0].strip()` when `s` holds a `;`, else `s`. */
  function DropMarker(s: string): string {
    if ';' in s then Strip(s[..IndexOfChar(s, ';')]) else s
  }

  /** What follows the name: without a leading `[...]` extras group when one closes. */
  function AfterExtras(rest: string): (tail: string)
    ensures |tail| <= |rest|
  {
    if rest != [] && rest[0] == '[' && ']' in rest then rest[IndexOfChar(rest, ']') + 1..] else rest
  }

  /**
   * The regular expression `^([a-zA-Z0-9._-]+)(\[[^\]]*\])?(.*?)$` applied
   * to stripped text. The match fails when the text does not start with a
   * name character, or when a line feed follows the name and extras (`.`
   * does not match it); otherwise the name is lower-cased and the stripped
   * rest is the version, `"*"` when empty.
   */
  function MatchRequirement(t: string, category: string): (r: Option<Dependency>)
    ensures r.Some? ==> r.value.category == category && r.value.sourceFile == SourceName
    ensures r.Some? ==> r.value.name != [] && r.value.version != []
    ensures r.Some? ==> forall i :: 0 <= i < |r.value.name| ==> NameChar(r.value.name[i]) && !('A' <= r.value.name[i] <= 'Z')
  {
    var n := NameLength(t);
    if n == 0 then None
    else
      var tail := AfterExtras(t[n..]);
      if '\n' in tail then None
      else
        var spec := Strip(tail);
        Some(Data.Dependency(Lower(t[..n]), if spec == [] then "*" else spec, category, SourceName))
  }

  /** `_parse_dependency_string`: the marker dropped, nothing for empty text, else the match on the stripped text. */
  function ParseDependencyString(depStr: string, category: string): (r: Option<Dependency>)
    ensures r.Some? ==> r.value.category == category && r.value.sourceFile == SourceName
    ensures r.Some? ==> r.value.name != [] && r.value.version != []
  {
    var s := DropMarker(depStr);
    if s == [] then None else MatchRequirement(Strip(s), category)
  }

  /** A string that does not start with a name character, after the marker is dropped and it is stripped, gives nothing. */
  lemma ParseNoName(depStr: string, category: string)
    requires var t := Strip(DropMarker(depStr)); t == [] || !NameChar(t[0])
    ensures ParseDependencyString(depStr, category).None?
  {
  }

  /** Everything from the first `;` on is ignored. */
  lemma MarkerIgnored(s: string, marker: string, category: string)
    requires ';' !in s
    ensures ParseDependencyString(s + ";" + marker, category) == ParseDependencyString(s, category)
  {
    var line := s + ";" + marker;
    assert line == s + ([';'] + marker);
    IndexOfCharAppend(s, [';'] + marker, ';');
    assert line[..|s|] == s;
    StripIdempotent(s);
    if s == [] {
      assert Strip(s) == [];
    } else if AllSpace(s) {
      assert Strip(s) == [];
      assert NameLength(Strip(Strip(s))) == 0;
    }
  }

  /** Text that can follow a name as its version: it changes nothing when stripped and cannot continue the name or open extras. */
  predicate VersionText(version: string) {
    version == []
    || (!IsSpace(version[0]) && !IsSpace(version[|version| - 1])
        && !NameChar(version[0]) && version[0] != '[' && '\n' !in version && ';' !in version)
  }

  /** A lower-case name followed by a version reads back as that name and version, `"*"` standing for no version. */
  lemma ParseRoundTrip(name: string, version: string, category: string)
    requires name != [] && forall i :: 0 <= i < |name| ==> NameChar(name[i]) && !('A' <= name[i] <= 'Z')
    requires VersionText(version)
    ensures ParseDependencyString(name + version, category)
         == Some(Data.Dependency(name, if version == [] then "*" else version, category, SourceName))
  {
    var line := name + version;
    assert ';' !in line by {
      forall i | 0 <= i < |name| ensures name[i] != ';' { }
    }
    assert !IsSpace(line[0]) && !IsSpace(line[|line| - 1]);
    StripNoop(line);
    MatchRoundTrip(name, version, category);
  }

  lemma MatchRoundTrip(name: string, version: string, category: string)
    requires name != [] && forall i :: 0 <= i < |name| ==> NameChar(name[i]) && !('A' <= name[i] <= 'Z')
    requires VersionText(version)
    ensures MatchRequirement(name + version, category)
         == Some(Data.Dependency(name, if version == [] then "*" else version, category, SourceName))
  {
    var line := name + version;
    NameLengthOf(name, version);
    assert line[|name|..] == version;
    assert line[..|name|] == name;
    StripNoop(version);
    assert Lower(name) == name;
  }

  /** The name run of `name + rest` is exactly `name` when `rest` does not continue it. */
  lemma {:induction false} NameLengthOf(name: string, rest: string)
    requires forall i :: 0 <= i < |name| ==> NameChar(name[i])
    requires rest == [] || !NameChar(rest[0])
    ensures NameLength(name + rest) == |name|
  {
    if name != [] {
      assert (name + rest)[1..] == name[1..] + rest;
      NameLengthOf(name[1..], rest);
    } else {
      assert name + rest == rest;
    }
  }

  /** An extras group between the name and the version is dropped. */
  lemma ParseExtrasIgnored(name: string, extras: string, version: string, category: string)
    requires name != [] && forall i :: 0 <= i < |name| ==> NameChar(name[i]) && !('A' <= name[i] <= 'Z')
    requires ']' !in extras && ';' !in extras
    requires VersionText(version)
    ensures ParseDependencyString(name + "[" + extras + "]" + version, category)
         == ParseDependencyString(name + version, category)
  {
    var line := name + "[" + extras + "]" + version;
    assert ';' !in line by {
      forall i | 0 <= i < |name| ensures name[i] != ';' { }
    }
    assert !IsSpace(line[0]);
    assert line[|line| - 1] == (if version == [] then ']' else version[|version| - 1]);
    StripNoop(line);
    MatchExtrasIgnored(name, extras, version, category);
    ParseRoundTrip(name, version, category);
  }

  lemma MatchExtrasIgnored(name: string, extras: string, version: string, category: string)
    requires name != [] && forall i :: 0 <= i < |name| ==> NameChar(name[i]) && !('A' <= name[i] <= 'Z')
    requires ']' !in extras
    requires VersionText(version)
    ensures MatchRequirement(name + "[" + extras + "]" + version, category)
         == Some(Data.Dependency(name, if version == [] then "*" else version, category, SourceName))
  {
    var rest := "[" + extras + "]" + version;
    var line := name + rest;
    assert line == name + "[" + extras + "]" + version;
    NameLengthOf(name, rest);
    assert line[|name|..] == rest;
    AfterExtrasOf(extras, version);
    assert line[..|name|] == name;
    StripNoop(version);
    assert Lower(name) == name;
  }

  /** The extras group is skipped up to its closing bracket. */
  lemma AfterExtrasOf(extras: string, version: string)
    requires ']' !in extras
    ensures AfterExtras("[" + extras + "]" + version) == version
  {
    var rest := "[" + extras + "]" + version;
    assert rest == ("[" + extras) + ("]" + version);
    IndexOfCharAppend("[" + extras, "]" + version, ']');
    assert rest[|extras| + 2..] == version;
  }

  /** `if dep_str:` then the parse of `str(dep_str)`. */
  function ItemDep(item: Json.Value, category: string): Option<Dependency> {
    if Json.Truthy(item) then ParseDependencyString(Json.ToStr(item), category) else None
  }

  /** The dependencies parsed from a list of requirement strings, in order. */
  function ItemDeps(items: seq<Json.Value>, category: string): (r: seq<Dependency>)
    ensures |r| <= |items|
  {
    if items == [] then []
    else
      ItemDeps(items[..|items| - 1], category) + Listed(ItemDep(items[|items| - 1], category))
  }

  /** A dependency comes from a list exactly when one of its truthy items parses to it. */
  lemma {:induction false} ItemDepsMembers(items: seq<Json.Value>, category: string, d: Dependency)
    ensures d in ItemDeps(items, category) <==> exists i :: 0 <= i < |items| && d in Listed(ItemDep(items[i], category))
  {
    if items != [] {
      var init := items[..|items| - 1];
      assert ItemDeps(items, category) == ItemDeps(init, category) + Listed(ItemDep(items[|items| - 1], category));
      ItemDepsMembers(init, category, d);
      assert (exists i :: 0 <= i < |init| && d in Listed(ItemDep(init[i], category)))
          <==> (exists i :: 0 <= i < |items| - 1 && d in Listed(ItemDep(items[i], category))) by {
        forall i | 0 <= i < |init| ensures init[i] == items[i] { }
      }
    }
  }

  /** Every dependency read from a list carries the list's category and comes from `pyproject.toml`. */
  lemma ItemDepsCategory(items: seq<Json.Value>, category: string, d: Dependency)
    requires d in ItemDeps(items, category)
    ensures d.category == category && d.sourceFile == SourceName
  {
    ItemDepsMembers(items, category, d);
  }

  /** `_extract_standard_deps`: the `dependencies` list, when it is a list, as production dependencies. */
  function StandardDeps(section: Json.Value): seq<Dependency> {
    var deps := Json.Get(section, "dependencies");
    if deps.Some? && deps.value.Arr? then ItemDeps(deps.value.items, "prod") else []
  }

  /** The optional groups in order; a group that is not a list contributes nothing. */
  function GroupDeps(groups: seq<Json.Value>): (r: seq<Dependency>) {
    if groups == [] then []
    else
      var g := groups[|groups| - 1];
      GroupDeps(groups[..|groups| - 1]) + (if g.Arr? then ItemDeps(g.items, "optional") else [])
  }

  /** `_extract_optional_deps`: every list in the `optional-dependencies` table, as optional dependencies. */
  function OptionalDeps(section: Json.Value): seq<Dependency> {
    var opt := Json.Get(section, "optional-dependencies");
    if opt.Some? && opt.value.Obj? then GroupDeps(Dict.Values(opt.value.fields)) else []
  }

  /** A dependency of the optional groups comes from one of the groups that is a list. */
  lemma {:induction false} GroupDepsMembers(groups: seq<Json.Value>, d: Dependency)
    ensures d in GroupDeps(groups) <==> exists g :: 0 <= g < |groups| && groups[g].Arr? && d in ItemDeps(groups[g].items, "optional")
  {
    if groups != [] {
      var init := groups[..|groups| - 1];
      GroupDepsMembers(init, d);
      assert (exists g :: 0 <= g < |init| && init[g].Arr? && d in ItemDeps(init[g].items, "optional"))
          <==> (exists g :: 0 <= g < |groups| - 1 && groups[g].Arr? && d in ItemDeps(groups[g].items, "optional")) by {
        forall g | 0 <= g < |init| ensures init[g] == groups[g] { }
      }
    }
  }

  /** Every optional dependency is in the `optional` category. */
  lemma OptionalDepsCategory(section: Json.Value, d: Dependency)
    requires d in OptionalDeps(section)
    ensures d.category == "optional" && d.sourceFile == SourceName
  {
    var opt := Json.Get(section, "optional-dependencies");
    var groups := Dict.Values(opt.value.fields);
    GroupDepsMembers(groups, d);
    var g :| 0 <= g < |groups| && groups[g].Arr? && d in ItemDeps(groups[g].items, "optional");
    ItemDepsCategory(groups[g].items, "optional", d);
  }

  /** `_extract_dependencies`: the standard ones, then the optional ones. */
  function AllDeps(section: Json.Value): seq<Dependency> {
    StandardDeps(section) + OptionalDeps(section)
  }

  /** Standard dependencies are `prod`, optional ones `optional`, and none is `dev`. */
  lemma AllDepsCategories(section: Json.Value, d: Dependency)
    requires d in AllDeps(section)
    ensures d.category == "prod" || d.category == "optional"
    ensures d in StandardDeps(section) ==> d.category == "prod"
    ensures d.sourceFile == SourceName
  {
    if d in StandardDeps(section) {
      var deps := Json.Get(section, "dependencies");
      ItemDepsCategory(deps.value.items, "prod", d);
    } else {
      OptionalDepsCategory(section, d);
    }
  }

  /** `_build_dep_info`. */
  function BuildDepInfo(deps: seq<Dependency>): Data.DependencyInfo {
    Data.DependencyInfo(
      deps,
      Data.CountCategory(deps, "prod"),
      Data.CountCategory(deps, "dev"),
      Data.CountCategory(deps, "optional"),
      |deps|,
      [SourceName],
      [])
  }

  /** The dev count of this file is zero and the production and optional counts add up to the total. */
  lemma {:induction false} CountsOfSection(section: Json.Value)
    ensures var info := BuildDepInfo(AllDeps(section));
      info.devCount == 0 && info.prodCount + info.optionalCount == info.totalCount
  {
    var deps := AllDeps(section);
    forall d | d in deps ensures d.category in ["prod", "dev", "optional"] && d.category != "dev" {
      AllDepsCategories(section, d);
    }
    NoCategory(deps, "dev");
    Data.CategoryCounts(deps);
  }

  /** A category no dependency has is counted zero times. */
  lemma {:induction false} NoCategory(deps: seq<Dependency>, category: string)
    requires forall d :: d in deps ==> d.category != category
    ensures Data.CountCategory(deps, category) == 0
  {
    if deps != [] {
      assert deps[0] in deps;
      assert forall d :: d in deps[1..] ==> d in deps;
      NoCategory(deps[1..], category);
    }
  }

  /**
   * The project table: `project` when it is a table, else the literal
   * `"[project]"` key when that is a table; nothing for a root that is not
   * a table.
   */
  function ProjectSection(root: Json.Value): (r: Option<Json.Value>)
    ensures r.Some? ==> r.value.Obj?
    ensures r.Some? ==> root.Obj?
  {
    if !root.Obj? then None
    else
      var p := Json.Get(root, "project");
      if p.Some? && p.value.Obj? then p
      else
        var alt := Json.Get(root, "[project]");
        if alt.Some? && alt.value.Obj? then alt else None
  }

  /** `_get_project_name`: `str(name)` when the name is truthy. */
  function ProjectName(section: Json.Value): (r: Option<string>)
    ensures r.Some? <==> Json.Get(section, "name").Some? && Json.Truthy(Json.Get(section, "name").value)
    ensures r.Some? && Json.Get(section, "name").value.Str? ==> r.value == Json.Get(section, "name").value.s
  {
    var name := Json.Get(section, "name");
    if name.Some? && Json.Truthy(name.value) then Some(Json.ToStr(name.value)) else None
  }

  /** `read_project_info`, as a value of the parsed document. */
  function PyProjectInfo(root: Json.Value, fileName: string): Data.ProjectFileInfo {
    match ProjectSection(root)
    case None => Data.ProjectFileInfo(None, None, [])
    case Some(section) =>
      var deps := AllDeps(section);
      Data.ProjectFileInfo(ProjectName(section), if deps == [] then None else Some(BuildDepInfo(deps)), [fileName])
  }

  /**
   * Without a usable project table nothing is reported; with one, the file
   * is the only source file, the dependency details are present exactly
   * when some dependency was read, and then they count `pyproject.toml` as
   * the only source, no conflicts, no dev dependencies and
   * production plus optional equal to the total.
   */
  lemma PyProjectInfoSpec(root: Json.Value, fileName: string)
    ensures var info := PyProjectInfo(root, fileName);
      (ProjectSection(root).None? ==> info == Data.ProjectFileInfo(None, None, []))
      && (!root.Obj? ==> info == Data.ProjectFileInfo(None, None, []))
      && (ProjectSection(root).Some? ==>
            info.sourceFiles == [fileName]
            && info.name == ProjectName(ProjectSection(root).value)
            && (info.dependencies.None? <==> AllDeps(ProjectSection(root).value) == [])
            && (info.dependencies.Some? ==>
                  var di := info.dependencies.value;
                  di.dependencies == AllDeps(ProjectSection(root).value)
                  && di.totalCount == |di.dependencies| && di.sources == [SourceName] && di.conflicts == []
                  && di.devCount == 0 && di.prodCount + di.optionalCount == di.totalCount))
  {
    if ProjectSection(root).Some? {
      CountsOfSection(ProjectSection(root).value);
    }
  }

  /** The `"[project]"` table is read only when `"project"` is not a table. */
  lemma LegacyTableFallback(root: Json.Value)
    requires root.Obj?
    ensures var p := Json.Get(root, "project");
      p.Some? && p.value.Obj? ==> ProjectSection(root) == p
    ensures var p := Json.Get(root, "project");
      !(p.Some? && p.value.Obj?) ==>
        ProjectSection(root) == (var alt := Json.Get(root, "[project]"); if alt.Some? && alt.value.Obj? then alt else None)
  {
  }

  /** The loop over one list of requirement strings. */
  method ExtractItems(items: seq<Json.Value>, category: string) returns (deps: seq<Dependency>)
    ensures deps == ItemDeps(items, category)
  {
    deps := [];
    for i := 0 to |items|
      invariant deps == ItemDeps(items[..i], category)
    {
      assert items[..i + 1][..i] == items[..i];
      var item := items[i];
      if Json.Truthy(item) {
        var dep := ParseDependencyString(Json.ToStr(item), category);
        if dep.Some? {
          deps := deps + [dep.value];
        }
      }
    }
    assert items[..|items|] == items;
  }

  /** `_extract_standard_deps`. */
  method ExtractStandardDeps(section: Json.Value) returns (deps: seq<Dependency>)
    ensures deps == StandardDeps(section)
  {
    deps := [];
    var d := Json.Get(section, "dependencies");
    if d.Some? && d.value.Arr? {
      deps := ExtractItems(d.value.items, "prod");
    }
  }

  /** `_extract_optional_deps`. */
  method ExtractOptionalDeps(section: Json.Value) returns (deps: seq<Dependency>)
    ensures deps == OptionalDeps(section)
  {
    deps := [];
    var opt := Json.Get(section, "optional-dependencies");
    if opt.Some? && opt.value.Obj? {
      var groups := Dict.Values(opt.value.fields);
      for g := 0 to |groups|
        invariant deps == GroupDeps(groups[..g])
      {
        assert groups[..g + 1][..g] == groups[..g];
        if groups[g].Arr? {
          var more := ExtractItems(groups[g].items, "optional");
          deps := deps + more;
        }
      }
      assert groups[..|groups|] == groups;
    }
  }

  /** `read_project_info`, over the parsed document. */
  method ReadProjectInfo(root: Json.Value, fileName: string) returns (info: Data.ProjectFileInfo)
    ensures info == PyProjectInfo(root, fileName)
  {
    var section := ProjectSection(root);
    if section.None? {
      return Data.ProjectFileInfo(None, None, []);
    }
    var standard := ExtractStandardDeps(section.value);
    var optional := ExtractOptionalDeps(section.value);
    var deps := standard + optional;
    var depInfo: Option<Data.DependencyInfo> := None;
    if deps != [] {
      depInfo := Some(BuildDepInfo(deps));
    }
    info := Data.ProjectFileInfo(ProjectName(section.value), depInfo, [fileName]);
  }
}
