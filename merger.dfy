/**
 * Merging the results of several project manifests into one: the first
 * truthy name, every dependency in input order, the sorted union of the
 * files read, per-category counts, and a conflict line for every package
 * that more than one file declares.
 */
module Merger {
  import opened Wrappers
  import opened PyStr
  import Dict
  import StrOrder
  import Data

  type Dependency = Data.Dependency
  type DependencyInfo = Data.DependencyInfo
  type ProjectFileInfo = Data.ProjectFileInfo

  /** Python truthiness of an optional string. */
  predicate Truthy(name: Option<string>) {
    name.Some? && name.value != []
  }

  // ---------------------------------------------------------------- name

  /** The index of the first truthy name, or `|infos|` when there is none. */
  function FirstNamed(infos: seq<ProjectFileInfo>): (k: nat)
    ensures k <= |infos|
    ensures forall j :: 0 <= j < k ==> !Truthy(infos[j].name)
    ensures k < |infos| ==> Truthy(infos[k].name)
  {
    if infos == [] then 0
    else if Truthy(infos[0].name) then 0
    else 1 + FirstNamed(infos[1..])
  }

  /** `_select_project_name`: the first truthy name in input order, else `None`. */
  function SelectName(infos: seq<ProjectFileInfo>): (r: Option<string>)
    ensures r.None? <==> forall j :: 0 <= j < |infos| ==> !Truthy(infos[j].name)
    ensures r.Some? ==> Truthy(r) && r == infos[FirstNamed(infos)].name
  {
    var k := FirstNamed(infos);
    if k < |infos| then infos[k].name else None
  }

  // ---------------------------------------------------------- collection

  function DepsOf(info: ProjectFileInfo): seq<Dependency> {
    if info.dependencies.Some? then info.dependencies.value.dependencies else []
  }

  function SourcesOf(info: ProjectFileInfo): set<string> {
    (if info.dependencies.Some? then (set s | s in info.dependencies.value.sources) else {})
      + (set s | s in info.sourceFiles)
  }

  /** What `f` gives for each element, concatenated in order. */
  function Lines<T, U>(f: T -> seq<U>, xs: seq<T>): seq<U> {
    if xs == [] then [] else Lines(f, xs[..|xs| - 1]) + f(xs[|xs| - 1])
  }

  /** Every input's dependencies, concatenated in input order. */
  function AllDeps(infos: seq<ProjectFileInfo>): seq<Dependency> {
    Lines(DepsOf, infos)
  }

  /** Every input's source files and dependency sources. */
  function AllSources(infos: seq<ProjectFileInfo>): set<string> {
    if infos == [] then {} else AllSources(infos[..|infos| - 1]) + SourcesOf(infos[|infos| - 1])
  }

  /** Collecting from two lists one after the other collects from their concatenation. */
  lemma AllDepsAppend(a: seq<ProjectFileInfo>, b: seq<ProjectFileInfo>)
    ensures AllDeps(a + b) == AllDeps(a) + AllDeps(b)
  {
    LinesAppend(DepsOf, a, b);
  }

  lemma {:induction false} LinesAppend<T, U>(f: T -> seq<U>, a: seq<T>, b: seq<T>)
    ensures Lines(f, a + b) == Lines(f, a) + Lines(f, b)
    decreases |b|
  {
    if b == [] {
      assert a + b == a;
    } else {
      var init := b[..|b| - 1];
      var ab := a + b;
      assert ab[..|ab| - 1] == a + init && ab[|ab| - 1] == b[|b| - 1];
      LinesAppend(f, a, init);
    }
  }

  /** The same for the sources. */
  lemma {:induction false} AllSourcesAppend(a: seq<ProjectFileInfo>, b: seq<ProjectFileInfo>)
    ensures AllSources(a + b) == AllSources(a) + AllSources(b)
    decreases |b|
  {
    if b == [] {
      assert a + b == a;
    } else {
      var init, last := b[..|b| - 1], b[|b| - 1];
      var ab := a + b;
      assert ab[..|ab| - 1] == a + init && ab[|ab| - 1] == last;
      AllSourcesAppend(a, init);
      assert AllSources(ab) == AllSources(a + init) + SourcesOf(last);
    }
  }

  /** A dependency is collected exactly when some input lists it. */
  lemma AllDepsMembers(infos: seq<ProjectFileInfo>, d: Dependency)
    ensures d in AllDeps(infos) <==> exists i :: 0 <= i < |infos| && d in DepsOf(infos[i])
  {
    if d in AllDeps(infos) {
      var i := LinesWitness(DepsOf, infos, d);
    }
    if exists i :: 0 <= i < |infos| && d in DepsOf(infos[i]) {
      var i :| 0 <= i < |infos| && d in DepsOf(infos[i]);
      LinesHas(DepsOf, infos, i, d);
    }
  }

  /** A file name is collected exactly when some input names it. */
  lemma {:induction false} AllSourcesMembers(infos: seq<ProjectFileInfo>, s: string)
    ensures s in AllSources(infos) <==> exists i :: 0 <= i < |infos| && s in SourcesOf(infos[i])
  {
    if infos != [] {
      var init := infos[..|infos| - 1];
      AllSourcesMembers(init, s);
      if s in AllSources(init) {
        var i :| 0 <= i < |init| && s in SourcesOf(init[i]);
        assert infos[i] == init[i];
      }
      if exists i :: 0 <= i < |infos| && s in SourcesOf(infos[i]) {
        var i :| 0 <= i < |infos| && s in SourcesOf(infos[i]);
        if i < |init| { assert init[i] == infos[i]; }
      }
    }
  }

  /** `_collect_all_deps`. */
  method CollectAllDeps(infos: seq<ProjectFileInfo>) returns (deps: seq<Dependency>, sources: set<string>)
    ensures deps == AllDeps(infos) && sources == AllSources(infos)
  {
    deps, sources := [], {};
    for i := 0 to |infos|
      invariant deps == AllDeps(infos[..i]) && sources == AllSources(infos[..i])
    {
      var info := infos[i];
      if info.dependencies.Some? {
        deps := deps + info.dependencies.value.dependencies;
        sources := sources + set s | s in info.dependencies.value.sources;
      }
      sources := sources + set s | s in info.sourceFiles;
      assert infos[..i + 1][..i] == infos[..i];
    }
    assert infos[..|infos|] == infos;
  }

  // -------------------------------------------------------------- counts

  /** `_build_dep_info`. */
  function BuildDepInfo(deps: seq<Dependency>, sources: set<string>, conflicts: seq<string>): (r: Option<DependencyInfo>)
    ensures r.None? <==> deps == []
    ensures r.Some? ==>
      && r.value.dependencies == deps
      && r.value.totalCount == |deps|
      && r.value.prodCount == Data.CountCategory(deps, "prod")
      && r.value.devCount == Data.CountCategory(deps, "dev")
      && r.value.optionalCount == Data.CountCategory(deps, "optional")
      && r.value.prodCount + r.value.devCount + r.value.optionalCount <= r.value.totalCount
      && StrOrder.StrictlySorted(r.value.sources)
      && (forall s :: s in r.value.sources <==> s in sources)
      && r.value.conflicts == conflicts
  {
    if deps == [] then None
    else
      Data.CategoryCounts(deps);
      Some(Data.DependencyInfo(
        deps,
        Data.CountCategory(deps, "prod"),
        Data.CountCategory(deps, "dev"),
        Data.CountCategory(deps, "optional"),
        |deps|,
        StrOrder.SortedOf(sources),
        conflicts))
  }

  // ------------------------------------------------------------ grouping

  /** The dependencies named `name`, in input order. */
  function ByName(deps: seq<Dependency>, name: string): (r: seq<Dependency>)
    ensures forall d :: d in r <==> d in deps && d.name == name
  {
    if deps == [] then []
    else
      var init, last := deps[..|deps| - 1], deps[|deps| - 1];
      assert deps == init + [last];
      ByName(init, name) + (if last.name == name then [last] else [])
  }

  function AddToGroup(groups: Dict.Dict<string, seq<Dependency>>, dep: Dependency): Dict.Dict<string, seq<Dependency>> {
    Dict.Set(groups, dep.name, Dict.GetOr(groups, dep.name, []) + [dep])
  }

  /** The dependencies grouped by name; names in order of first appearance. */
  function Groups(deps: seq<Dependency>): Dict.Dict<string, seq<Dependency>> {
    if deps == [] then [] else AddToGroup(Groups(deps[..|deps| - 1]), deps[|deps| - 1])
  }

  /** Each name present maps to exactly its dependencies. */
  lemma {:induction false} GroupsGet(deps: seq<Dependency>, name: string)
    ensures Dict.Get(Groups(deps), name) == if ByName(deps, name) == [] then None else Some(ByName(deps, name))
  {
    if deps != [] {
      var init, last := deps[..|deps| - 1], deps[|deps| - 1];
      var g := Groups(init);
      var v := Dict.GetOr(g, last.name, []) + [last];
      assert Groups(deps) == Dict.Set(g, last.name, v);
      GroupsGet(init, name);
      if last.name == name {
        assert ByName(deps, name) == ByName(init, name) + [last];
        assert Dict.GetOr(g, name, []) == ByName(init, name);
      } else {
        assert ByName(deps, name) == ByName(init, name);
        Dict.SetOther(g, last.name, v, name);
      }
    }
  }

  /** No name is a key twice. */
  lemma {:induction false} GroupsUnique(deps: seq<Dependency>)
    ensures Dict.Unique(Groups(deps))
  {
    if deps != [] {
      var init, last := deps[..|deps| - 1], deps[|deps| - 1];
      var g := Groups(init);
      GroupsUnique(init);
      Dict.SetUnique(g, last.name, Dict.GetOr(g, last.name, []) + [last]);
    }
  }

  /** Creating an empty group for a new name, then appending, adds the dependency to its group. */
  lemma GroupStep(groups: Dict.Dict<string, seq<Dependency>>, dep: Dependency)
    ensures var g := if Dict.Get(groups, dep.name).None? then Dict.Set(groups, dep.name, []) else groups;
      Dict.Get(g, dep.name).Some? && Dict.Set(g, dep.name, Dict.Get(g, dep.name).value + [dep]) == AddToGroup(groups, dep)
  {
    var n := dep.name;
    if Dict.Get(groups, n).None? {
      var g := Dict.Set(groups, n, []);
      assert Dict.Get(g, n).value + [dep] == [dep];
      assert Dict.GetOr(groups, n, []) + [dep] == [dep];
      Dict.SetSet(groups, n, [], [dep]);
    } else {
      assert Dict.GetOr(groups, n, []) == Dict.Get(groups, n).value;
    }
  }

  /** `_group_deps_by_name`. */
  method GroupDepsByName(deps: seq<Dependency>) returns (groups: Dict.Dict<string, seq<Dependency>>)
    ensures groups == Groups(deps)
  {
    groups := [];
    for i := 0 to |deps|
      invariant groups == Groups(deps[..i])
    {
      var dep := deps[i];
      GroupStep(groups, dep);
      assert Groups(deps[..i + 1]) == AddToGroup(groups, dep) by {
        assert deps[..i + 1][..i] == deps[..i];
      }
      if Dict.Get(groups, dep.name).None? {
        groups := Dict.Set(groups, dep.name, []);
      }
      var current := Dict.Get(groups, dep.name).value;
      groups := Dict.Set(groups, dep.name, current + [dep]);
    }
    assert deps[..|deps|] == deps;
  }

  // ----------------------------------------------------------- conflicts

  function AddVersion(byFile: Dict.Dict<string, set<string>>, dep: Dependency): Dict.Dict<string, set<string>> {
    Dict.Set(byFile, dep.sourceFile, Dict.GetOr(byFile, dep.sourceFile, {}) + {dep.version})
  }

  /** The versions of a package, grouped by the file that declares them. */
  function VersionsByFile(deps: seq<Dependency>): Dict.Dict<string, set<string>> {
    if deps == [] then [] else AddVersion(VersionsByFile(deps[..|deps| - 1]), deps[|deps| - 1])
  }

  /** A file is a key exactly when some dependency comes from it; no file twice. */
  lemma {:induction false} VersionsByFileKeys(deps: seq<Dependency>, file: string)
    ensures Dict.Get(VersionsByFile(deps), file).Some? <==> exists i :: 0 <= i < |deps| && deps[i].sourceFile == file
    ensures Dict.Unique(VersionsByFile(deps))
  {
    if deps != [] {
      var init, last := deps[..|deps| - 1], deps[|deps| - 1];
      var v := VersionsByFile(init);
      VersionsByFileKeys(init, file);
      Dict.SetUnique(v, last.sourceFile, Dict.GetOr(v, last.sourceFile, {}) + {last.version});
      if last.sourceFile != file {
        Dict.SetOther(v, last.sourceFile, Dict.GetOr(v, last.sourceFile, {}) + {last.version}, file);
      }
      if exists i :: 0 <= i < |init| && init[i].sourceFile == file {
        var i :| 0 <= i < |init| && init[i].sourceFile == file;
        assert deps[i] == init[i];
      }
      if exists i :: 0 <= i < |deps| && deps[i].sourceFile == file {
        var i :| 0 <= i < |deps| && deps[i].sourceFile == file;
        if i < |init| { assert init[i] == deps[i]; }
      }
    }
  }

  /** `"<file> has <v1>, <v2>"` for one file, its versions sorted. */
  function FileLine(byFile: Dict.Dict<string, set<string>>, file: string): string {
    file + " has " + Join(StrOrder.SortedOf(Dict.GetOr(byFile, file, {})), ", ")
  }

  /** One line per file of `files`, in order. */
  function FileLines(byFile: Dict.Dict<string, set<string>>, files: seq<string>): (r: seq<string>)
    ensures |r| == |files|
  {
    if files == [] then []
    else FileLines(byFile, files[..|files| - 1]) + [FileLine(byFile, files[|files| - 1])]
  }

  /** `_format_version_strings`: the files in sorted order, one line each. */
  function VersionStrings(byFile: Dict.Dict<string, set<string>>): seq<string> {
    FileLines(byFile, StrOrder.SortedSet(Dict.Keys(byFile)))
  }

  /** `_find_version_conflict`, as a value. */
  function VersionConflict(name: string, deps: seq<Dependency>): Option<string> {
    if |deps| <= 1 then None
    else
      var byFile := VersionsByFile(deps);
      if |byFile| <= 1 then None
      else Some(name + ": " + Join(VersionStrings(byFile), "; "))
  }

  /** A version conflict exists exactly when two of the dependencies come from different files. */
  lemma VersionConflictIff(name: string, deps: seq<Dependency>)
    ensures VersionConflict(name, deps).Some? <==>
      exists i, j :: 0 <= i < |deps| && 0 <= j < |deps| && deps[i].sourceFile != deps[j].sourceFile
  {
    var byFile := VersionsByFile(deps);
    if exists i, j :: 0 <= i < |deps| && 0 <= j < |deps| && deps[i].sourceFile != deps[j].sourceFile {
      var i, j :| 0 <= i < |deps| && 0 <= j < |deps| && deps[i].sourceFile != deps[j].sourceFile;
      VersionsByFileKeys(deps, deps[i].sourceFile);
      VersionsByFileKeys(deps, deps[j].sourceFile);
      var a := Dict.Get(byFile, deps[i].sourceFile).value;
      var b := Dict.Get(byFile, deps[j].sourceFile).value;
      Dict.GetFound(byFile, deps[i].sourceFile);
      Dict.GetFound(byFile, deps[j].sourceFile);
      assert (deps[i].sourceFile, a) in byFile && (deps[j].sourceFile, b) in byFile;
      assert |byFile| >= 2;
    }
    if VersionConflict(name, deps).Some? {
      VersionsByFileKeys(deps, byFile[0].0);
      VersionsByFileKeys(deps, byFile[1].0);
      assert Dict.Get(byFile, byFile[0].0).Some? && Dict.Get(byFile, byFile[1].0).Some?;
    }
  }

  /** The conflict lines of every group, in group order. */
  function ConflictLines(groups: Dict.Dict<string, seq<Dependency>>): seq<string> {
    Lines(ConflictOf, groups)
  }

  lemma LinesStep<T, U>(f: T -> seq<U>, xs: seq<T>, i: nat)
    requires i < |xs|
    ensures Lines(f, xs[..i + 1]) == Lines(f, xs[..i]) + f(xs[i])
  {
    assert xs[..i + 1][..i] == xs[..i];
  }

  /** Every line comes from one of the elements. */
  lemma {:induction false} LinesWitness<T, U>(f: T -> seq<U>, xs: seq<T>, c: U) returns (i: nat)
    requires c in Lines(f, xs)
    ensures i < |xs| && c in f(xs[i])
  {
    var init := xs[..|xs| - 1];
    if c in f(xs[|xs| - 1]) {
      i := |xs| - 1;
    } else {
      i := LinesWitness(f, init, c);
      assert xs[i] == init[i];
    }
  }

  /** Every element's lines are all there. */
  lemma {:induction false} LinesHas<T, U>(f: T -> seq<U>, xs: seq<T>, i: nat, c: U)
    requires i < |xs| && c in f(xs[i])
    ensures c in Lines(f, xs)
  {
    var init := xs[..|xs| - 1];
    if i < |init| {
      assert xs[i] == init[i];
      LinesHas(f, init, i, c);
    }
  }

  /** The conflict line of one group, if it has one. */
  function ConflictOf(group: (string, seq<Dependency>)): (r: seq<string>)
    ensures forall c :: c in r <==> VersionConflict(group.0, group.1) == Some(c)
  {
    var c := VersionConflict(group.0, group.1);
    if c.Some? then [c.value] else []
  }

  /** `_detect_conflicts`, as a value. */
  function Conflicts(deps: seq<Dependency>): seq<string> {
    ConflictLines(Groups(deps))
  }

  lemma ConflictLinesMembers(groups: Dict.Dict<string, seq<Dependency>>, c: string)
    ensures c in ConflictLines(groups) <==> exists i :: 0 <= i < |groups| && c in ConflictOf(groups[i])
  {
    if c in ConflictLines(groups) {
      var i := LinesWitness(ConflictOf, groups, c);
    }
    if exists i :: 0 <= i < |groups| && c in ConflictOf(groups[i]) {
      var i :| 0 <= i < |groups| && c in ConflictOf(groups[i]);
      LinesHas(ConflictOf, groups, i, c);
    }
  }

  /** A conflict line is reported exactly for the names whose dependencies conflict. */
  lemma ConflictsMembers(deps: seq<Dependency>, c: string)
    ensures c in Conflicts(deps) <==> exists name :: ByName(deps, name) != [] && VersionConflict(name, ByName(deps, name)) == Some(c)
  {
    if c in Conflicts(deps) {
      ConflictsSound(deps, c);
    }
    if exists name :: ByName(deps, name) != [] && VersionConflict(name, ByName(deps, name)) == Some(c) {
      var name :| ByName(deps, name) != [] && VersionConflict(name, ByName(deps, name)) == Some(c);
      ConflictsComplete(deps, name, c);
    }
  }

  /** Every conflict line belongs to a name whose dependencies conflict. */
  lemma ConflictsSound(deps: seq<Dependency>, c: string)
    requires c in Conflicts(deps)
    ensures exists name :: ByName(deps, name) != [] && VersionConflict(name, ByName(deps, name)) == Some(c)
  {
    var groups := Groups(deps);
    ConflictLinesMembers(groups, c);
    var i :| 0 <= i < |groups| && c in ConflictOf(groups[i]);
    var name := groups[i].0;
    GroupsGet(deps, name);
    GroupsUnique(deps);
    Dict.GetIndex(groups, i);
    assert groups[i].1 == ByName(deps, name);
    assert ByName(deps, name) != [] && VersionConflict(name, ByName(deps, name)) == Some(c);
  }

  /** The conflict of every name with dependencies is reported. */
  lemma ConflictsComplete(deps: seq<Dependency>, name: string, c: string)
    requires ByName(deps, name) != [] && VersionConflict(name, ByName(deps, name)) == Some(c)
    ensures c in Conflicts(deps)
  {
    var groups := Groups(deps);
    GroupsGet(deps, name);
    Dict.GetFound(groups, name);
    var i :| 0 <= i < |groups| && groups[i] == (name, ByName(deps, name));
    assert c in ConflictOf(groups[i]);
    ConflictLinesMembers(groups, c);
  }

  /**
   * A package conflicts exactly when two of its declarations come from
   * different files, whatever their versions.
   */
  lemma NameConflictIff(deps: seq<Dependency>, name: string)
    ensures VersionConflict(name, ByName(deps, name)).Some? <==>
      exists a, b :: a in deps && b in deps && a.name == name && b.name == name && a.sourceFile != b.sourceFile
  {
    var named := ByName(deps, name);
    VersionConflictIff(name, named);
    if exists a, b :: a in deps && b in deps && a.name == name && b.name == name && a.sourceFile != b.sourceFile {
      var a, b :| a in deps && b in deps && a.name == name && b.name == name && a.sourceFile != b.sourceFile;
      var i :| 0 <= i < |named| && named[i] == a;
      var j :| 0 <= j < |named| && named[j] == b;
      assert named[i].sourceFile != named[j].sourceFile;
    }
    if VersionConflict(name, named).Some? {
      var i, j :| 0 <= i < |named| && 0 <= j < |named| && named[i].sourceFile != named[j].sourceFile;
      assert named[i] in named && named[j] in named;
    }
  }

  /** `_format_version_strings`. */
  method FormatVersionStrings(byFile: Dict.Dict<string, set<string>>) returns (r: seq<string>)
    ensures r == VersionStrings(byFile)
  {
    var files := StrOrder.SortedSet(Dict.Keys(byFile));
    r := [];
    for i := 0 to |files|
      invariant r == FileLines(byFile, files[..i])
    {
      var file := files[i];
      var versionList := Join(StrOrder.SortedOf(Dict.GetOr(byFile, file, {})), ", ");
      r := r + [file + " has " + versionList];
      assert files[..i + 1][..i] == files[..i];
    }
    assert files[..|files|] == files;
  }

  /** Creating an empty set for a new file, then adding, records the version under its file. */
  lemma VersionStep(byFile: Dict.Dict<string, set<string>>, dep: Dependency)
    ensures var v := if Dict.Get(byFile, dep.sourceFile).None? then Dict.Set(byFile, dep.sourceFile, {}) else byFile;
      Dict.Get(v, dep.sourceFile).Some? &&
      Dict.Set(v, dep.sourceFile, Dict.Get(v, dep.sourceFile).value + {dep.version}) == AddVersion(byFile, dep)
  {
    var f := dep.sourceFile;
    if Dict.Get(byFile, f).None? {
      var v := Dict.Set(byFile, f, {});
      assert Dict.Get(v, f).value + {dep.version} == {dep.version};
      assert Dict.GetOr(byFile, f, {}) + {dep.version} == {dep.version};
      Dict.SetSet(byFile, f, {}, {dep.version});
    } else {
      assert Dict.GetOr(byFile, f, {}) == Dict.Get(byFile, f).value;
    }
  }

  /** `_find_version_conflict`. */
  method FindVersionConflict(name: string, deps: seq<Dependency>) returns (r: Option<string>)
    ensures r == VersionConflict(name, deps)
  {
    if |deps| <= 1 {
      return None;
    }
    var byFile: Dict.Dict<string, set<string>> := [];
    for i := 0 to |deps|
      invariant byFile == VersionsByFile(deps[..i])
    {
      var dep := deps[i];
      VersionStep(byFile, dep);
      assert VersionsByFile(deps[..i + 1]) == AddVersion(byFile, dep) by {
        assert deps[..i + 1][..i] == deps[..i];
      }
      if Dict.Get(byFile, dep.sourceFile).None? {
        byFile := Dict.Set(byFile, dep.sourceFile, {});
      }
      var current := Dict.Get(byFile, dep.sourceFile).value;
      byFile := Dict.Set(byFile, dep.sourceFile, current + {dep.version});
    }
    assert deps[..|deps|] == deps;
    if |byFile| <= 1 {
      return None;
    }
    var versionStrs := FormatVersionStrings(byFile);
    r := Some(name + ": " + Join(versionStrs, "; "));
  }

  /** `_detect_conflicts`. */
  method DetectConflicts(deps: seq<Dependency>) returns (r: seq<string>)
    ensures r == Conflicts(deps)
  {
    var groups := GroupDepsByName(deps);
    r := [];
    for i := 0 to |groups|
      invariant r == ConflictLines(groups[..i])
    {
      var conflict := FindVersionConflict(groups[i].0, groups[i].1);
      LinesStep(ConflictOf, groups, i);
      if conflict.Some? {
        r := r + [conflict.value];
      }
    }
    assert groups[..|groups|] == groups;
  }

  // --------------------------------------------------------------- merge

  /**
   * `merge`, as a value: no inputs give an empty result, one input is
   * returned as it is, and several are combined.
   */
  function Merged(infos: seq<ProjectFileInfo>): (r: ProjectFileInfo)
    ensures infos == [] ==> r.name.None? && r.dependencies.None? && r.sourceFiles == []
    ensures |infos| == 1 ==> r == infos[0]
    ensures |infos| >= 2 ==> r.name == SelectName(infos) && StrOrder.StrictlySorted(r.sourceFiles)
  {
    if infos == [] then Data.ProjectFileInfo(None, None, [])
    else if |infos| == 1 then infos[0]
    else
      var deps := AllDeps(infos);
      var sources := AllSources(infos);
      Data.ProjectFileInfo(SelectName(infos), BuildDepInfo(deps, sources, Conflicts(deps)), StrOrder.SortedOf(sources))
  }

  /** `merge`. */
  method Merge(infos: seq<ProjectFileInfo>) returns (r: ProjectFileInfo)
    ensures r == Merged(infos)
  {
    if infos == [] {
      return Data.ProjectFileInfo(None, None, []);
    }
    if |infos| == 1 {
      return infos[0];
    }
    var name := SelectName(infos);
    var deps, sources := CollectAllDeps(infos);
    var conflicts := DetectConflicts(deps);
    var depInfo := BuildDepInfo(deps, sources, conflicts);
    r := Data.ProjectFileInfo(name, depInfo, StrOrder.SortedOf(sources));
  }

  /**
   * What a merge of several results holds: the first truthy name; the
   * sorted union of every file read; every dependency in input order, or
   * none at all, counted per category; and the conflict lines of those
   * dependencies.
   */
  lemma MergedSpec(infos: seq<ProjectFileInfo>, s: string, d: Dependency)
    requires |infos| >= 2
    ensures Merged(infos).name == SelectName(infos)
    ensures StrOrder.StrictlySorted(Merged(infos).sourceFiles)
    ensures s in Merged(infos).sourceFiles <==> exists i :: 0 <= i < |infos| && s in SourcesOf(infos[i])
    ensures Merged(infos).dependencies.None? <==> forall i :: 0 <= i < |infos| ==> DepsOf(infos[i]) == []
    ensures Merged(infos).dependencies.Some? ==>
      (d in Merged(infos).dependencies.value.dependencies <==> exists i :: 0 <= i < |infos| && d in DepsOf(infos[i]))
    ensures Merged(infos).dependencies.Some? ==>
      var info := Merged(infos).dependencies.value;
      && info.prodCount == Data.CountCategory(info.dependencies, "prod")
      && info.devCount == Data.CountCategory(info.dependencies, "dev")
      && info.optionalCount == Data.CountCategory(info.dependencies, "optional")
      && info.totalCount == |info.dependencies|
      && info.conflicts == Conflicts(info.dependencies)
  {
    AllSourcesMembers(infos, s);
    AllDepsMembers(infos, d);
    AllDepsEmpty(infos);
  }

  lemma {:induction false} AllDepsEmpty(infos: seq<ProjectFileInfo>)
    ensures AllDeps(infos) == [] <==> forall i :: 0 <= i < |infos| ==> DepsOf(infos[i]) == []
  {
    if infos != [] {
      var init := infos[..|infos| - 1];
      AllDepsEmpty(init);
      assert forall i :: 0 <= i < |init| ==> init[i] == infos[i];
    }
  }
}
