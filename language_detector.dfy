/**
 * Language detection by file name and extension, from a YAML language
 * table optionally overridden by a custom mapping from the configuration.
 */
module LanguageDetector {
  import opened Wrappers
  import opened PyStr
  import Dict
  import Json
  import PyPath

  type StrMap = Dict.Dict<string, string>
  type Table = Dict.Dict<string, Json.Value>

  /** The three lookup tables a detector holds. */
  datatype Detector = Detector(extensionToLang: StrMap, filenameToLang: StrMap, langToCategory: StrMap)

  const Empty := Detector([], [], [])

  /** The language table file: absent, unreadable or malformed, or parsed. */
  datatype YamlSource = NoFile | Unreadable(reason: string) | Parsed(doc: Json.Value)

  /**
   * `_load_yaml_config`: no file gives an empty table, a document that is
   * not a mapping is read as an empty table, a read or syntax failure is a
   * ValueError.
   */
  function LoadYaml(src: YamlSource): (r: Result<Table>)
    ensures r.Err? <==> src.Unreadable?
    ensures r.Ok? && r.value != [] ==> src.Parsed? && src.doc == Json.Obj(r.value)
  {
    match src
    case NoFile => Ok([])
    case Unreadable(reason) => Err(ValueError("Failed to load language map: " + reason))
    case Parsed(doc) => if doc.Obj? then Ok(doc.fields) else Ok([])
  }

  /**
   * `for x in v`: a list yields its items, a string its characters, a
   * mapping its keys; any other value is not iterable.
   */
  function Iterate(v: Json.Value): (r: Result<seq<Json.Value>>)
    ensures r.Ok? <==> v.Arr? || v.Str? || v.Obj?
  {
    match v
    case Arr(xs) => Ok(xs)
    case Str(s) => Ok(seq(|s|, i requires 0 <= i < |s| => Json.Str([s[i]])))
    case Obj(fs) => Ok(seq(|fs|, i requires 0 <= i < |fs| => Json.Str(fs[i].0)))
    case _ => Err(TypeError("object is not iterable"))
  }

  // ---------------------------------------------------------------------
  // Merging the custom mapping over the YAML table
  // ---------------------------------------------------------------------

  /** The fields of `v` when it is a mapping, otherwise none. */
  function FieldsOf(v: Option<Json.Value>): Table {
    if v.Some? && v.value.Obj? then v.value.fields else []
  }

  /** One custom entry merged in: its keys override the language's existing keys. */
  function MergeEntry(merged: Table, entry: (string, Json.Value)): Table {
    var (lang, custom) := entry;
    if !custom.Obj? then merged
    else Dict.Set(merged, lang, Json.Obj(Dict.Update(FieldsOf(Dict.Get(merged, lang)), custom.fields)))
  }

  /** Every custom entry merged in, in order. */
  function MergeAll(merged: Table, custom: Table): Table
    decreases |custom|
  {
    if custom == [] then merged else MergeAll(MergeEntry(merged, custom[0]), custom[1..])
  }

  /** `_merge_language_mappings` as a value: an absent or empty custom mapping changes nothing. */
  function Merged(base: Table, custom: Option<Table>): Table {
    if custom.None? || custom.value == [] then base else MergeAll(base, custom.value)
  }

  method MergeLanguageMappings(base: Table, custom: Option<Table>) returns (merged: Table)
    ensures merged == Merged(base, custom)
  {
    if custom.None? || custom.value == [] {
      return base;
    }
    var entries := custom.value;
    merged := base;
    for i := 0 to |entries|
      invariant MergeAll(merged, entries[i..]) == MergeAll(base, entries)
    {
      assert entries[i..][1..] == entries[i + 1..];
      var (lang, customInfo) := entries[i];
      if !customInfo.Obj? {
        continue;
      }
      var baseInfo := FieldsOf(Dict.Get(merged, lang));
      var updated := Dict.Update(baseInfo, customInfo.fields);
      merged := Dict.Set(merged, lang, Json.Obj(updated));
    }
    assert entries[|entries|..] == [];
  }

  /** A custom entry whose value is not a mapping is skipped. */
  predicate Overrides(custom: Table, lang: string) {
    exists i :: 0 <= i < |custom| && custom[i].0 == lang && custom[i].1.Obj?
  }

  /**
   * After merging, a language the custom mapping does not override keeps
   * its table entry; one it overrides has the table's keys updated with
   * the custom keys.
   */
  lemma {:induction false} MergeAllGet(merged: Table, custom: Table, lang: string)
    requires Dict.Unique(custom)
    requires forall i :: 0 <= i < |custom| && custom[i].1.Obj? ==> Dict.Unique(custom[i].1.fields)
    ensures !Overrides(custom, lang) ==> Dict.Get(MergeAll(merged, custom), lang) == Dict.Get(merged, lang)
    ensures forall i :: 0 <= i < |custom| && custom[i].0 == lang && custom[i].1.Obj? ==>
      Dict.Get(MergeAll(merged, custom), lang)
        == Some(Json.Obj(Dict.Update(FieldsOf(Dict.Get(merged, lang)), custom[i].1.fields)))
    decreases |custom|
  {
    if custom != [] {
      var next := MergeEntry(merged, custom[0]);
      var rest := custom[1..];
      assert Dict.Unique(rest);
      MergeAllGet(next, rest, lang);
      if custom[0].0 == lang {
        assert !Overrides(rest, lang);
        if custom[0].1.Obj? {
          assert Dict.Get(next, lang)
            == Some(Json.Obj(Dict.Update(FieldsOf(Dict.Get(merged, lang)), custom[0].1.fields)));
        }
      } else {
        if custom[0].1.Obj? {
          Dict.SetOther(merged, custom[0].0,
            Json.Obj(Dict.Update(FieldsOf(Dict.Get(merged, custom[0].0)), custom[0].1.fields)), lang);
        }
        assert Dict.Get(next, lang) == Dict.Get(merged, lang);
        assert Overrides(custom, lang) ==> Overrides(rest, lang) by {
          if Overrides(custom, lang) {
            var i :| 0 <= i < |custom| && custom[i].0 == lang && custom[i].1.Obj?;
            assert rest[i - 1] == custom[i];
          }
        }
        forall i | 0 <= i < |custom| && custom[i].0 == lang && custom[i].1.Obj?
          ensures Dict.Get(MergeAll(merged, custom), lang)
            == Some(Json.Obj(Dict.Update(FieldsOf(Dict.Get(merged, lang)), custom[i].1.fields)))
        {
          assert rest[i - 1] == custom[i];
        }
      }
    }
  }

  // ---------------------------------------------------------------------
  // Building the lookup tables
  // ---------------------------------------------------------------------

  /** Extensions are stored lower-cased; file names exactly as written. */
  function KeyOf(s: string, lowered: bool): string {
    if lowered then Lower(s) else s
  }

  /** `m[key(x)] = lang` for every string `x` of `items`, in order; other items are skipped. */
  function AddNames(m: StrMap, items: seq<Json.Value>, lang: string, lowered: bool): StrMap
    decreases |items|
  {
    if items == [] then m
    else
      var m' := if items[0].Str? then Dict.Set(m, KeyOf(items[0].s, lowered), lang) else m;
      AddNames(m', items[1..], lang, lowered)
  }

  /** `items` holds a string whose key is `k`. */
  predicate Claims(items: seq<Json.Value>, k: string, lowered: bool) {
    exists i :: 0 <= i < |items| && items[i].Str? && KeyOf(items[i].s, lowered) == k
  }

  /** A key listed by `items` maps to `lang`; every other key keeps its mapping. */
  lemma {:induction false} AddNamesGet(m: StrMap, items: seq<Json.Value>, lang: string, lowered: bool, k: string)
    ensures Dict.Get(AddNames(m, items, lang, lowered), k)
      == if Claims(items, k, lowered) then Some(lang) else Dict.Get(m, k)
    decreases |items|
  {
    if items != [] {
      var m' := if items[0].Str? then Dict.Set(m, KeyOf(items[0].s, lowered), lang) else m;
      AddNamesGet(m', items[1..], lang, lowered, k);
      if items[0].Str? && KeyOf(items[0].s, lowered) != k {
        Dict.SetOther(m, KeyOf(items[0].s, lowered), lang, k);
      }
      if Claims(items[1..], k, lowered) {
        var i :| 0 <= i < |items[1..]| && items[1..][i].Str? && KeyOf(items[1..][i].s, lowered) == k;
        assert items[i + 1] == items[1..][i];
      }
      if Claims(items, k, lowered) && !(items[0].Str? && KeyOf(items[0].s, lowered) == k) {
        var i :| 0 <= i < |items| && items[i].Str? && KeyOf(items[i].s, lowered) == k;
        assert items[1..][i - 1] == items[i];
      }
    }
  }

  /**
   * `_process_extensions` (lowered) and `_process_filenames`: iterate the
   * value under `key` (an empty list when missing) and map each string to
   * `lang`.
   */
  method ProcessNames(info: Table, key: string, lang: string, m: StrMap, lowered: bool)
    returns (r: Result<StrMap>)
    ensures r == NamesStep(info, key, lang, m, lowered)
  {
    var items :- Iterate(Dict.GetOr(info, key, Json.Arr([])));
    var acc := m;
    for i := 0 to |items|
      invariant AddNames(acc, items[i..], lang, lowered) == AddNames(m, items, lang, lowered)
    {
      assert items[i..][1..] == items[i + 1..];
      var x := items[i];
      if x.Str? {
        acc := Dict.Set(acc, KeyOf(x.s, lowered), lang);
      }
    }
    assert items[|items|..] == [];
    return Ok(acc);
  }

  function NamesStep(info: Table, key: string, lang: string, m: StrMap, lowered: bool): Result<StrMap> {
    var items :- Iterate(Dict.GetOr(info, key, Json.Arr([])));
    Ok(AddNames(m, items, lang, lowered))
  }

  /** `_process_category`: a string `type` (default "unknown") is recorded; any other is not. */
  function ProcessCategory(info: Table, lang: string, m: StrMap): (r: StrMap)
    ensures Dict.GetOr(info, "type", Json.Str("unknown")).Str? ==>
      Dict.Get(r, lang) == Some(Dict.GetOr(info, "type", Json.Str("unknown")).s)
    ensures !Dict.GetOr(info, "type", Json.Str("unknown")).Str? ==> r == m
  {
    var category := Dict.GetOr(info, "type", Json.Str("unknown"));
    if category.Str? then Dict.Set(m, lang, category.s) else m
  }

  /** One language of the table added to the detector; entries that are not mappings are skipped. */
  function BuildEntry(d: Detector, entry: (string, Json.Value)): Result<Detector> {
    var (lang, info) := entry;
    if !info.Obj? then Ok(d)
    else
      var ext :- NamesStep(info.fields, "extensions", lang, d.extensionToLang, true);
      var names :- NamesStep(info.fields, "filenames", lang, d.filenameToLang, false);
      Ok(Detector(ext, names, ProcessCategory(info.fields, lang, d.langToCategory)))
  }

  /** Every language of the table added, in order; the first failure stops the build. */
  function BuildAll(d: Detector, data: Table): Result<Detector>
    decreases |data|
  {
    if data == [] then Ok(d)
    else
      var d' :- BuildEntry(d, data[0]);
      BuildAll(d', data[1..])
  }

  /** `_build_language_mappings`. */
  method BuildLanguageMappings(data: Table) returns (r: Result<Detector>)
    ensures r == BuildAll(Empty, data)
  {
    var ext: StrMap := [];
    var names: StrMap := [];
    var categories: StrMap := [];
    for i := 0 to |data|
      invariant BuildAll(Detector(ext, names, categories), data[i..]) == BuildAll(Empty, data)
    {
      assert data[i..][1..] == data[i + 1..];
      var (lang, info) := data[i];
      if !info.Obj? {
        continue;
      }
      var e := ProcessNames(info.fields, "extensions", lang, ext, true);
      if e.Err? {
        return Err(e.error);
      }
      ext := e.value;
      var n := ProcessNames(info.fields, "filenames", lang, names, false);
      if n.Err? {
        return Err(n.error);
      }
      names := n.value;
      categories := ProcessCategory(info.fields, lang, categories);
    }
    assert data[|data|..] == [];
    return Ok(Detector(ext, names, categories));
  }

  /** `_load_language_map`: load the table, merge the custom mapping over it, build. */
  method LoadLanguageMap(src: YamlSource, custom: Option<Table>) returns (r: Result<Detector>)
    ensures r == Load(src, custom)
  {
    var data :- LoadYaml(src);
    var merged := MergeLanguageMappings(data, custom);
    r := BuildLanguageMappings(merged);
  }

  function Load(src: YamlSource, custom: Option<Table>): Result<Detector> {
    var data :- LoadYaml(src);
    BuildAll(Empty, Merged(data, custom))
  }

  // ---------------------------------------------------------------------
  // Lookups
  // ---------------------------------------------------------------------

  /** `detect`: the exact file name first, then the lower-cased suffix, else "unknown". */
  function Detect(d: Detector, file: PyPath.Path): (lang: string)
    ensures Dict.Get(d.filenameToLang, PyPath.Name(file)).Some? ==>
      lang == Dict.Get(d.filenameToLang, PyPath.Name(file)).value
    ensures Dict.Get(d.filenameToLang, PyPath.Name(file)).None? ==>
      lang == Dict.GetOr(d.extensionToLang, Lower(PyPath.Suffix(file)), "unknown")
  {
    var name := PyPath.Name(file);
    match Dict.Get(d.filenameToLang, name)
    case Some(lang) => lang
    case None =>
      match Dict.Get(d.extensionToLang, Lower(PyPath.Suffix(file)))
      case Some(lang) => lang
      case None => "unknown"
  }

  /** `get_category`: the category of a language, "unknown" when it has none. */
  function Category(d: Detector, lang: string): string {
    Dict.GetOr(d.langToCategory, lang, "unknown")
  }

  /** The languages in `data` claiming key `k` under `key`: the last one, if any. */
  function LastClaim(data: Table, key: string, lowered: bool, k: string): Option<string>
    decreases |data|
  {
    if data == [] then None
    else
      var later := LastClaim(data[1..], key, lowered, k);
      if later.Some? then later
      else if EntryClaims(data[0], key, lowered, k) then Some(data[0].0)
      else None
  }

  predicate EntryClaims(entry: (string, Json.Value), key: string, lowered: bool, k: string) {
    entry.1.Obj?
    && var items := Iterate(Dict.GetOr(entry.1.fields, key, Json.Arr([])));
       items.Ok? && Claims(items.value, k, lowered)
  }

  function Names(d: Detector, lowered: bool): StrMap {
    if lowered then d.extensionToLang else d.filenameToLang
  }

  /**
   * When two languages list the same extension (or file name), the later
   * one in table order wins; a key nobody lists keeps its earlier mapping.
   */
  lemma {:induction false} LaterLanguageWins(d: Detector, data: Table, lowered: bool, k: string)
    requires BuildAll(d, data).Ok?
    ensures var key := if lowered then "extensions" else "filenames";
      var claim := LastClaim(data, key, lowered, k);
      Dict.Get(Names(BuildAll(d, data).value, lowered), k)
        == if claim.Some? then claim else Dict.Get(Names(d, lowered), k)
    decreases |data|
  {
    var key := if lowered then "extensions" else "filenames";
    if data != [] {
      var d' := BuildEntry(d, data[0]).value;
      LaterLanguageWins(d', data[1..], lowered, k);
      var (lang, info) := data[0];
      if info.Obj? {
        var items := Iterate(Dict.GetOr(info.fields, key, Json.Arr([]))).value;
        AddNamesGet(Names(d, lowered), items, lang, lowered, k);
      }
    }
  }

  /** Languages in a table with unique names keep the category their entry gives. */
  lemma {:induction false} CategoryOfEntry(d: Detector, data: Table, lang: string)
    requires BuildAll(d, data).Ok? && Dict.Unique(data)
    ensures var r := BuildAll(d, data).value;
      match Dict.Get(data, lang)
      case Some(info) =>
        if info.Obj? && Dict.GetOr(info.fields, "type", Json.Str("unknown")).Str? then
          Category(r, lang) == Dict.GetOr(info.fields, "type", Json.Str("unknown")).s
        else Category(r, lang) == Category(d, lang)
      case None => Category(r, lang) == Category(d, lang)
    decreases |data|
  {
    if data != [] {
      var d' := BuildEntry(d, data[0]).value;
      assert Dict.Unique(data[1..]);
      CategoryOfEntry(d', data[1..], lang);
      var (l, info) := data[0];
      if l == lang {
        Dict.GetNone(data[1..], lang);
        assert Dict.Get(data[1..], lang).None?;
      } else if info.Obj? {
        var t := Dict.GetOr(info.fields, "type", Json.Str("unknown"));
        if t.Str? { Dict.SetOther(d.langToCategory, l, t.s, lang); }
      }
    }
  }

  /** With no table and no custom mapping every file is "unknown", and so is every category. */
  lemma EmptyConfigUnknown(file: PyPath.Path, lang: string)
    ensures Load(NoFile, None) == Ok(Empty)
    ensures Detect(Empty, file) == "unknown" && Category(Empty, lang) == "unknown"
  {
  }

  /**
   * Extension detection ignores case: two files whose names are not
   * listed and whose suffixes differ only in case get the same language.
   */
  lemma DetectIgnoresSuffixCase(d: Detector, f: PyPath.Path, g: PyPath.Path)
    requires Dict.Get(d.filenameToLang, PyPath.Name(f)).None?
    requires Dict.Get(d.filenameToLang, PyPath.Name(g)).None?
    requires Lower(PyPath.Suffix(f)) == Lower(PyPath.Suffix(g))
    ensures Detect(d, f) == Detect(d, g)
  {
  }
}
