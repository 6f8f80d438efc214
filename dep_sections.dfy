/**
 * What the Cargo.toml and package.json readers share: a dependency table
 * whose keys are names and whose values give versions, turned entry by
 * entry into dependencies of one category, and the two lists (dependencies
 * and source names) that the readers' helpers append to in place.
 */
module DepSections {
  import opened Wrappers
  import opened PyStr
  import Json
  import Dict
  import Data

  type Dependency = Data.Dependency
  type Table = Dict.Dict<string, Json.Value>

  /** `data.get(key)` when it is a table. */
  function SectionOf(root: Json.Value, key: string): (r: Option<Table>)
    ensures r.Some? <==> Json.Get(root, key).Some? && Json.Get(root, key).value.Obj?
    ensures r.Some? ==> r.value == Json.Get(root, key).value.fields
  {
    var v := Json.Get(root, key);
    if v.Some? && v.value.Obj? then Some(v.value.fields) else None
  }

  /** One table entry as a dependency: the lower-cased key and the version its value gives. */
  function Entry(entry: (string, Json.Value), category: string, source: string, version: Json.Value -> string): Dependency {
    Data.Dependency(Lower(entry.0), version(entry.1), category, source)
  }

  /** Every entry of a table as a dependency, in the table's order. */
  function SectionDeps(table: Table, category: string, source: string, version: Json.Value -> string): (r: seq<Dependency>)
    ensures |r| == |table|
    ensures forall i :: 0 <= i < |table| ==> r[i] == Entry(table[i], category, source, version)
  {
    if table == [] then []
    else SectionDeps(table[..|table| - 1], category, source, version) + [Entry(table[|table| - 1], category, source, version)]
  }

  /** The dependencies of a section when it is a table, and none otherwise. */
  function DepsOfSection(root: Json.Value, key: string, category: string, source: string, version: Json.Value -> string): seq<Dependency> {
    var t := SectionOf(root, key);
    if t.Some? then SectionDeps(t.value, category, source, version) else []
  }

  /** A section's dependencies all carry its category, so it adds exactly its size to that count and nothing to any other. */
  lemma {:induction false} SectionCounts(table: Table, category: string, other: string, source: string, version: Json.Value -> string)
    requires other != category
    ensures Data.CountCategory(SectionDeps(table, category, source, version), category) == |table|
    ensures Data.CountCategory(SectionDeps(table, category, source, version), other) == 0
  {
    if table != [] {
      var init := table[..|table| - 1];
      var e := [Entry(table[|table| - 1], category, source, version)];
      SectionCounts(init, category, other, source, version);
      Data.CountCategoryAppend(SectionDeps(init, category, source, version), e, category);
      Data.CountCategoryAppend(SectionDeps(init, category, source, version), e, other);
    }
  }

  /** The same for a section that may be absent. */
  lemma DepsOfSectionCounts(root: Json.Value, key: string, category: string, other: string, source: string, version: Json.Value -> string)
    requires other != category
    ensures var deps := DepsOfSection(root, key, category, source, version);
      Data.CountCategory(deps, category) == |deps| && Data.CountCategory(deps, other) == 0
  {
    var t := SectionOf(root, key);
    if t.Some? {
      SectionCounts(t.value, category, other, source, version);
    }
  }

  /** `sources.append(source)` guarded by `if source not in sources`. */
  function AddSource(sources: seq<string>, source: string): (r: seq<string>)
    ensures source in r
    ensures forall s :: s in r <==> s in sources || s == source
    ensures source in sources ==> r == sources
  {
    if source in sources then sources else sources + [source]
  }

  /**
   * The dependency details built from the collected lists: nothing when no
   * dependency was found, else the dependencies with their per-category
   * counts, the sources and no conflicts.
   */
  function CollectedInfo(deps: seq<Dependency>, sources: seq<string>): (r: Option<Data.DependencyInfo>)
    ensures r.None? <==> deps == []
    ensures r.Some? ==> r.value.dependencies == deps && r.value.totalCount == |deps| && r.value.sources == sources
  {
    if deps == [] then None
    else Some(Data.DependencyInfo(
      deps,
      Data.CountCategory(deps, "prod"),
      Data.CountCategory(deps, "dev"),
      Data.CountCategory(deps, "optional"),
      |deps|,
      sources,
      []))
  }

  /** The `dependencies_list` and `sources` lists a reader builds, which its helpers extend in place. */
  class Collector {
    var deps: seq<Dependency>
    var sources: seq<string>

    constructor ()
      ensures deps == [] && sources == []
    {
      deps := [];
      sources := [];
    }

    /** The loop over a table's items, appending one dependency per entry. */
    method AppendTable(table: Table, category: string, source: string, version: Json.Value -> string)
      modifies this
      ensures deps == old(deps) + SectionDeps(table, category, source, version)
      ensures sources == old(sources)
    {
      for i := 0 to |table|
        invariant deps == old(deps) + SectionDeps(table[..i], category, source, version)
        invariant sources == old(sources)
      {
        assert table[..i + 1][..i] == table[..i];
        deps := deps + [Entry(table[i], category, source, version)];
      }
      assert table[..|table|] == table;
    }

    /** The first section read: when it is a table, its source is appended unconditionally and its entries follow. */
    method AddFirstSection(root: Json.Value, key: string, category: string, source: string, version: Json.Value -> string)
      modifies this
      ensures deps == old(deps) + DepsOfSection(root, key, category, source, version)
      ensures sources == if SectionOf(root, key).Some? then old(sources) + [source] else old(sources)
    {
      var t := SectionOf(root, key);
      if t.Some? {
        sources := sources + [source];
        AppendTable(t.value, category, source, version);
      }
    }

    /** A later section: its source is appended only when not already present. */
    method AddLaterSection(root: Json.Value, key: string, category: string, source: string, version: Json.Value -> string)
      modifies this
      ensures deps == old(deps) + DepsOfSection(root, key, category, source, version)
      ensures sources == if SectionOf(root, key).Some? then AddSource(old(sources), source) else old(sources)
    {
      var t := SectionOf(root, key);
      if t.Some? {
        if source !in sources {
          sources := sources + [source];
        }
        AppendTable(t.value, category, source, version);
      }
    }
  }
}
