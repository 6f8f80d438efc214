/**
 * The dictionary the JSON formatter prints: the headline fields of an
 * analysis result, then the git facts, the per-category and per-language
 * line counts and the dependency summary, each only when there is
 * something to show.
 */
module JsonFormatter {
  import opened Wrappers
  import Json
  import Dict
  import PyPath
  import Dates
  import Data
  import opened Fields
  import Formatting
  import GitInfoSerializer

  /** What `isinstance(x, int | float)` accepts; a `bool` is an `int` in Python. */
  predicate IsNumber(v: Json.Value) {
    v.Int? || v.Float? || v.Bool?
  }

  function NumberValue(v: Json.Value): real
    requires IsNumber(v)
  {
    match v
    case Int(i) => i as real
    case Float(f) => f.value
    case Bool(b) => if b then 1.0 else 0.0
  }

  /** `int(x)` of a number: truncation toward zero. */
  function Truncate(x: real): (r: int)
    ensures 0.0 <= x ==> r as real <= x < r as real + 1.0
    ensures x < 0.0 ==> r as real - 1.0 < x <= r as real
  {
    if x >= 0.0 then x.Floor else -((-x).Floor)
  }

  /**
   * `_extract_bytes`: the first numeric attribute among the byte count, the
   * kilobyte count (times 1024) and the megabyte count (times 1048576,
   * truncated after the product); 0 when none is numeric. `None` stands for
   * a missing attribute.
   */
  function ExtractBytes(tsb: Option<Json.Value>, tsk: Option<Json.Value>, tsm: Option<Json.Value>): (r: int)
    ensures tsb.Some? && tsb.value.Int? ==> r == tsb.value.i
    ensures r != 0 ==> exists v :: v in [tsb, tsk, tsm] && v.Some? && IsNumber(v.value)
  {
    if tsb.Some? && IsNumber(tsb.value) then Truncate(NumberValue(tsb.value))
    else if tsk.Some? && IsNumber(tsk.value) then Truncate(NumberValue(tsk.value)) * 1024
    else if tsm.Some? && IsNumber(tsm.value) then Truncate(NumberValue(tsm.value) * 1024.0 * 1024.0)
    else 0
  }

  /**
   * A numeric byte count decides alone, whatever the other attributes
   * hold; a numeric kilobyte count decides when the byte count is not
   * numeric; a numeric megabyte count decides, as 1048576 times its value
   * truncated, when neither of the others is numeric; and with nothing
   * numeric the size is 0.
   */
  lemma ExtractBytesPrecedence(b: Option<Json.Value>, k: Option<Json.Value>, mb: Option<Json.Value>,
                               k': Option<Json.Value>, mb': Option<Json.Value>)
    ensures b.Some? && IsNumber(b.value) ==> ExtractBytes(b, k, mb) == ExtractBytes(b, k', mb')
    ensures !(b.Some? && IsNumber(b.value)) && k.Some? && IsNumber(k.value) ==>
      ExtractBytes(b, k, mb) == ExtractBytes(None, k, mb') && ExtractBytes(b, k, mb) % 1024 == 0
    ensures !(b.Some? && IsNumber(b.value)) && !(k.Some? && IsNumber(k.value)) && mb.Some? && IsNumber(mb.value) ==>
      ExtractBytes(b, k, mb) == Truncate(NumberValue(mb.value) * 1048576.0)
    ensures (forall v :: v in [b, k, mb] && v.Some? ==> !IsNumber(v.value)) ==> ExtractBytes(b, k, mb) == 0
  {
  }

  /** For an analysis result the byte count is the one the result holds. */
  lemma ExtractBytesOfMetrics(m: Data.Metrics)
    ensures ExtractBytes(Some(Json.Int(m.totalSizeBytes)), Some(Json.Int(m.totalSizeKb)), Some(Json.Int(m.totalSizeMb)))
         == m.totalSizeBytes
  {
  }

  /** Falling back on a whole kilobyte count `b // 1024` loses less than 1 KB of `b`. */
  lemma KbFallbackBound(b: nat)
    ensures var x := ExtractBytes(None, Some(Json.Int(b / 1024)), None);
      x <= b < x + 1024
  {
  }

  /** The keys of one language's entry, in the order they are written. */
  const EntryKeys: seq<string> := ["total", "code", "comments", "blank"]

  lemma EntryKeysDistinct()
    ensures forall i, j :: 0 <= i < j < |EntryKeys| ==> EntryKeys[i] != EntryKeys[j]
  {
  }

  function EntryValues(lines: int, comments: int, blanks: int): (r: seq<Json.Value>)
    ensures |r| == |EntryKeys|
  {
    [Json.Int(lines), Json.Int(lines - comments - blanks), Json.Int(comments), Json.Int(blanks)]
  }

  /** One language's entry: its lines, the code lines among them, its comment and blank lines. */
  function LanguageEntry(lines: int, comments: int, blanks: int): Json.Value {
    Json.Obj(Dict.Zip(EntryKeys, EntryValues(lines, comments, blanks)))
  }

  lemma EntryField(lines: int, comments: int, blanks: int, i: nat)
    requires i < |EntryKeys|
    ensures Json.Get(LanguageEntry(lines, comments, blanks), EntryKeys[i]) == Some(EntryValues(lines, comments, blanks)[i])
  {
    EntryKeysDistinct();
    Dict.ZipGet(EntryKeys, EntryValues(lines, comments, blanks), i);
  }

  /** The code lines of an entry are its total less its comment and blank lines. */
  lemma EntryCode(lines: int, comments: int, blanks: int)
    ensures var e := LanguageEntry(lines, comments, blanks);
      Json.Get(e, "total") == Some(Json.Int(lines)) && Json.Get(e, "comments") == Some(Json.Int(comments))
      && Json.Get(e, "blank") == Some(Json.Int(blanks))
      && Json.Get(e, "code") == Some(Json.Int(lines - comments - blanks))
  {
    EntryField(lines, comments, blanks, 0);
    EntryField(lines, comments, blanks, 1);
    EntryField(lines, comments, blanks, 2);
    EntryField(lines, comments, blanks, 3);
  }

  /** The entry of `lang`, whose missing comment and blank counts read as 0. */
  function EntryOf(comments: Data.Counts, blanks: Data.Counts, lang: string, lines: int): Json.Value {
    LanguageEntry(lines, Dict.GetOr(comments, lang, 0), Dict.GetOr(blanks, lang, 0))
  }

  /** The entry maker of one analysis result's comment and blank counts. */
  function EntryFn(comments: Data.Counts, blanks: Data.Counts): (string, int) -> Json.Value {
    (lang, n) => EntryOf(comments, blanks, lang, n)
  }

  /** The `languages` dict after the loop has seen the first `k` languages of `lines`. */
  function LanguagesUpTo(lines: Data.Counts, entry: (string, int) -> Json.Value, k: nat): Dict.Dict<string, Json.Value>
    requires k <= |lines|
  {
    if k == 0 then []
    else Dict.Set(LanguagesUpTo(lines, entry, k - 1), lines[k - 1].0, entry(lines[k - 1].0, lines[k - 1].1))
  }

  /** One more turn of the loop sets the next language's entry. */
  lemma LanguagesStep(lines: Data.Counts, entry: (string, int) -> Json.Value, k: nat)
    requires k < |lines|
    ensures LanguagesUpTo(lines, entry, k + 1) == Dict.Set(LanguagesUpTo(lines, entry, k), lines[k].0, entry(lines[k].0, lines[k].1))
  {
  }

  /** Each language seen so far has its entry, and no other key has one. */
  lemma {:induction false} LanguagesGet(lines: Data.Counts, entry: (string, int) -> Json.Value, k: nat, lang: string)
    requires Dict.Unique(lines) && k <= |lines|
    ensures var seen := Dict.Get(lines[..k], lang);
      Dict.Get(LanguagesUpTo(lines, entry, k), lang) == if seen.Some? then Some(entry(lang, seen.value)) else None
  {
    if k > 0 {
      var (key, n) := lines[k - 1];
      var prefix := lines[..k - 1];
      assert lines[..k] == prefix + [(key, n)];
      Dict.GetAppend(prefix, key, n, lang);
      LanguagesGet(lines, entry, k - 1, lang);
      if lang == key {
        assert Dict.Get(prefix, key).None? by {
          forall i | 0 <= i < |prefix| ensures prefix[i].0 != key {
            assert prefix[i] == lines[i];
          }
          Dict.GetNone(prefix, key);
        }
      } else {
        Dict.SetOther(LanguagesUpTo(lines, entry, k - 1), key, entry(key, n), lang);
      }
    }
  }

  /** With distinct languages every language adds a new entry at the end. */
  lemma LanguagesAppend(lines: Data.Counts, entry: (string, int) -> Json.Value, k: nat)
    requires Dict.Unique(lines) && 0 < k <= |lines|
    ensures LanguagesUpTo(lines, entry, k) == LanguagesUpTo(lines, entry, k - 1) + [(lines[k - 1].0, entry(lines[k - 1].0, lines[k - 1].1))]
  {
    var key := lines[k - 1].0;
    LanguagesGet(lines, entry, k - 1, key);
    assert Dict.Get(lines[..k - 1], key).None? by {
      forall i | 0 <= i < k - 1 ensures lines[i].0 != key {
      }
      Dict.GetNone(lines[..k - 1], key);
    }
    Dict.SetNew(LanguagesUpTo(lines, entry, k - 1), key, entry(key, lines[k - 1].1));
  }

  /** One entry per language, in the order of the line counts. */
  function LanguagesListed(lines: Data.Counts, entry: (string, int) -> Json.Value, k: nat): (r: Dict.Dict<string, Json.Value>)
    requires k <= |lines|
    ensures |r| == k
    ensures forall i :: 0 <= i < k ==> r[i] == (lines[i].0, entry(lines[i].0, lines[i].1))
  {
    seq(k, i requires 0 <= i < k => (lines[i].0, entry(lines[i].0, lines[i].1)))
  }

  /** With distinct languages the loop lists every language once, in order, with its entry. */
  lemma {:induction false} LanguagesAt(lines: Data.Counts, entry: (string, int) -> Json.Value, k: nat)
    requires Dict.Unique(lines) && k <= |lines|
    ensures LanguagesUpTo(lines, entry, k) == LanguagesListed(lines, entry, k)
  {
    if k > 0 {
      LanguagesAt(lines, entry, k - 1);
      LanguagesAppend(lines, entry, k);
      ListedStep(lines, entry, k);
    }
  }

  lemma ListedStep(lines: Data.Counts, entry: (string, int) -> Json.Value, k: nat)
    requires 0 < k <= |lines|
    ensures LanguagesListed(lines, entry, k)
         == LanguagesListed(lines, entry, k - 1) + [(lines[k - 1].0, entry(lines[k - 1].0, lines[k - 1].1))]
  {
  }

  /** The keys of the dependency summary, in the order they are written. */
  const DependencyKeys: seq<string> := ["prod_count", "dev_count", "optional_count", "total_count", "sources", "conflicts"]

  lemma DependencyKeysDistinct()
    ensures forall i, j :: 0 <= i < j < |DependencyKeys| ==> DependencyKeys[i] != DependencyKeys[j]
  {
  }

  function DependencyValues(info: Data.DependencyInfo): (r: seq<Json.Value>)
    ensures |r| == |DependencyKeys|
  {
    [Json.Int(info.prodCount), Json.Int(info.devCount), Json.Int(info.optionalCount), Json.Int(info.totalCount),
     Strs(info.sources), Strs(info.conflicts)]
  }

  /** The dependency summary: the four counts and the two lists, without the dependencies themselves. */
  function DependencySummary(info: Data.DependencyInfo): Json.Value {
    Json.Obj(Dict.Zip(DependencyKeys, DependencyValues(info)))
  }

  /** Each field of the summary holds its value, and the list of dependencies is not part of it. */
  lemma DependencyField(info: Data.DependencyInfo, i: nat)
    requires i < |DependencyKeys|
    ensures Json.Get(DependencySummary(info), DependencyKeys[i]) == Some(DependencyValues(info)[i])
    ensures Json.Get(DependencySummary(info), "dependencies").None?
  {
    DependencyKeysDistinct();
    Dict.ZipGet(DependencyKeys, DependencyValues(info), i);
    Dict.ZipMissing(DependencyKeys, DependencyValues(info), "dependencies");
  }

  /** The keys every output has, in the order they are written. */
  const BaseKeys: seq<string> := ["name", "path", "timestamp", "total_files", "total_size", "total_lines"]

  lemma BaseKeysDistinct()
    ensures forall i, j :: 0 <= i < j < |BaseKeys| ==> BaseKeys[i] != BaseKeys[j]
    ensures "git_info" !in BaseKeys && "lines_by_category" !in BaseKeys
    ensures "lines_by_language" !in BaseKeys && "dependencies" !in BaseKeys
  {
  }

  function BaseValues(m: Data.Metrics, sizeText: string): (r: seq<Json.Value>)
    requires Dates.ValidDateTime(m.timestamp)
    ensures |r| == |BaseKeys|
  {
    [Json.Str(m.name), Json.Str(PyPath.ToStr(m.path)), Json.Str(Dates.DayText(m.timestamp)),
     Json.Int(m.totalFiles), Json.Str(sizeText), Json.Int(m.totalLines)]
  }

  /** `d[key] = v` when there is a value to add. */
  function Extend(d: Dict.Dict<string, Json.Value>, key: string, v: Option<Json.Value>): Dict.Dict<string, Json.Value> {
    if v.Some? then Dict.Set(d, key, v.value) else d
  }

  /** The added key holds the added value; every other key keeps its value. */
  lemma ExtendGet(d: Dict.Dict<string, Json.Value>, key: string, v: Option<Json.Value>, k: string)
    ensures Dict.Get(Extend(d, key, v), k) == if k == key && v.Some? then v else Dict.Get(d, k)
  {
    if v.Some? && k != key {
      Dict.SetOther(d, key, v.value, k);
    }
  }

  function GitEntry(gitInfo: Option<Data.GitInfo>): Option<Json.Value> {
    if gitInfo.Some? then Some(GitInfoSerializer.ToDict(gitInfo.value)) else None
  }

  function CategoriesEntry(m: Data.Metrics): Option<Json.Value> {
    if m.linesByCategory != [] then Some(Ints(m.linesByCategory)) else None
  }

  function LanguagesEntry(m: Data.Metrics): Option<Json.Value> {
    if m.linesByLang != [] then Some(Json.Obj(LanguagesUpTo(m.linesByLang, EntryFn(m.commentLinesByLang, m.blankLinesByLang), |m.linesByLang|))) else None
  }

  function DependenciesEntry(m: Data.Metrics): Option<Json.Value> {
    if m.dependencies.Some? then Some(DependencySummary(m.dependencies.value)) else None
  }

  /** The fields of the output, once the size text is known. */
  function OutputFields(m: Data.Metrics, gitInfo: Option<Data.GitInfo>, sizeText: string): Dict.Dict<string, Json.Value>
    requires Dates.ValidDateTime(m.timestamp)
  {
    var base := Dict.Zip(BaseKeys, BaseValues(m, sizeText));
    var withGit := Extend(base, "git_info", GitEntry(gitInfo));
    var withCategories := Extend(withGit, "lines_by_category", CategoriesEntry(m));
    var withLanguages := Extend(withCategories, "lines_by_language", LanguagesEntry(m));
    Extend(withLanguages, "dependencies", DependenciesEntry(m))
  }

  /** The byte count `_build_dict` formats: the one the result holds. */
  function BytesOf(m: Data.Metrics): int {
    ExtractBytes(Some(Json.Int(m.totalSizeBytes)), Some(Json.Int(m.totalSizeKb)), Some(Json.Int(m.totalSizeMb)))
  }

  /** `_build_dict`, as a value: fails only where `format_size` raises. */
  function BuildDictOf(m: Data.Metrics, gitInfo: Option<Data.GitInfo>): Result<Json.Value>
    requires Dates.ValidDateTime(m.timestamp)
  {
    match Formatting.FormatSizeOf(Some(BytesOf(m)))
    case Err(e) => Err(e)
    case Ok(sizeText) => Ok(Json.Obj(OutputFields(m, gitInfo, sizeText)))
  }

  /**
   * The per-language table: one entry per language of `lines`, in the order
   * the languages were counted, each with its comment and blank counts (zero
   * when a language has none).
   */
  method BuildLanguages(lines: Data.Counts, comments: Data.Counts, blanks: Data.Counts)
    returns (languages: Dict.Dict<string, Json.Value>)
    ensures languages == LanguagesUpTo(lines, EntryFn(comments, blanks), |lines|)
  {
    languages := [];
    ghost var entry := EntryFn(comments, blanks);
    var i: nat := 0;
    while i < |lines|
      invariant i <= |lines|
      invariant languages == LanguagesUpTo(lines, entry, i)
    {
      var (lang, count) := lines[i];
      var commentCount := Dict.GetOr(comments, lang, 0);
      var blankCount := Dict.GetOr(blanks, lang, 0);
      LanguagesStep(lines, entry, i);
      assert LanguageEntry(count, commentCount, blankCount) == entry(lang, count);
      languages := Dict.Set(languages, lang, LanguageEntry(count, commentCount, blankCount));
      i := i + 1;
    }
  }

  /**
   * `_build_dict`: the six headline fields, then `git_info`,
   * `lines_by_category`, `lines_by_language` (filled language by language)
   * and `dependencies`, each only when there is something to show.
   */
  method BuildDict(m: Data.Metrics, gitInfo: Option<Data.GitInfo>) returns (r: Result<Json.Value>)
    requires Dates.ValidDateTime(m.timestamp)
    ensures r == BuildDictOf(m, gitInfo)
  {
    var bytesVal := ExtractBytes(Some(Json.Int(m.totalSizeBytes)), Some(Json.Int(m.totalSizeKb)), Some(Json.Int(m.totalSizeMb)));
    var totalSize := Formatting.FormatSize(Some(bytesVal));
    if totalSize.Err? {
      return Err(totalSize.error);
    }
    var result := Dict.Zip(BaseKeys, BaseValues(m, totalSize.value));
    ghost var base := result;
    if gitInfo.Some? {
      result := Dict.Set(result, "git_info", GitInfoSerializer.ToDict(gitInfo.value));
    }
    assert result == Extend(base, "git_info", GitEntry(gitInfo));
    ghost var withGit := result;
    if m.linesByCategory != [] {
      result := Dict.Set(result, "lines_by_category", Ints(m.linesByCategory));
    }
    assert result == Extend(withGit, "lines_by_category", CategoriesEntry(m));
    ghost var withCategories := result;
    if m.linesByLang != [] {
      var languages := BuildLanguages(m.linesByLang, m.commentLinesByLang, m.blankLinesByLang);
      result := Dict.Set(result, "lines_by_language", Json.Obj(languages));
    }
    assert result == Extend(withCategories, "lines_by_language", LanguagesEntry(m));
    ghost var withLanguages := result;
    if m.dependencies.Some? {
      result := Dict.Set(result, "dependencies", DependencySummary(m.dependencies.value));
    }
    assert result == Extend(withLanguages, "dependencies", DependenciesEntry(m));
    assert result == OutputFields(m, gitInfo, totalSize.value);
    return Ok(Json.Obj(result));
  }

  /** The output exists exactly when the byte count is not negative. */
  lemma BuildDictFails(m: Data.Metrics, gitInfo: Option<Data.GitInfo>)
    requires Dates.ValidDateTime(m.timestamp)
    ensures BuildDictOf(m, gitInfo).Err? <==> m.totalSizeBytes < 0
    ensures BuildDictOf(m, gitInfo).Err? ==> BuildDictOf(m, gitInfo).error.ValueError?
  {
    ExtractBytesOfMetrics(m);
  }

  /** Each optional key is present exactly when it has something to show, and then holds it. */
  lemma OptionalFields(m: Data.Metrics, gitInfo: Option<Data.GitInfo>, sizeText: string)
    requires Dates.ValidDateTime(m.timestamp)
    ensures var d := OutputFields(m, gitInfo, sizeText);
      Dict.Get(d, "git_info") == GitEntry(gitInfo)
      && Dict.Get(d, "lines_by_category") == CategoriesEntry(m)
      && Dict.Get(d, "lines_by_language") == LanguagesEntry(m)
      && Dict.Get(d, "dependencies") == DependenciesEntry(m)
  {
    var base := Dict.Zip(BaseKeys, BaseValues(m, sizeText));
    var withGit := Extend(base, "git_info", GitEntry(gitInfo));
    var withCategories := Extend(withGit, "lines_by_category", CategoriesEntry(m));
    var withLanguages := Extend(withCategories, "lines_by_language", LanguagesEntry(m));
    BaseKeysDistinct();
    Dict.ZipMissing(BaseKeys, BaseValues(m, sizeText), "git_info");
    Dict.ZipMissing(BaseKeys, BaseValues(m, sizeText), "lines_by_category");
    Dict.ZipMissing(BaseKeys, BaseValues(m, sizeText), "lines_by_language");
    Dict.ZipMissing(BaseKeys, BaseValues(m, sizeText), "dependencies");
    ExtendGet(base, "git_info", GitEntry(gitInfo), "git_info");
    ExtendGet(base, "git_info", GitEntry(gitInfo), "lines_by_category");
    ExtendGet(base, "git_info", GitEntry(gitInfo), "lines_by_language");
    ExtendGet(base, "git_info", GitEntry(gitInfo), "dependencies");
    ExtendGet(withGit, "lines_by_category", CategoriesEntry(m), "git_info");
    ExtendGet(withGit, "lines_by_category", CategoriesEntry(m), "lines_by_category");
    ExtendGet(withGit, "lines_by_category", CategoriesEntry(m), "lines_by_language");
    ExtendGet(withGit, "lines_by_category", CategoriesEntry(m), "dependencies");
    ExtendGet(withCategories, "lines_by_language", LanguagesEntry(m), "git_info");
    ExtendGet(withCategories, "lines_by_language", LanguagesEntry(m), "lines_by_category");
    ExtendGet(withCategories, "lines_by_language", LanguagesEntry(m), "lines_by_language");
    ExtendGet(withCategories, "lines_by_language", LanguagesEntry(m), "dependencies");
    ExtendGet(withLanguages, "dependencies", DependenciesEntry(m), "git_info");
    ExtendGet(withLanguages, "dependencies", DependenciesEntry(m), "lines_by_category");
    ExtendGet(withLanguages, "dependencies", DependenciesEntry(m), "lines_by_language");
    ExtendGet(withLanguages, "dependencies", DependenciesEntry(m), "dependencies");
  }

  /** Each headline field holds its value, whatever optional keys follow. */
  lemma BaseFieldOfOutput(m: Data.Metrics, gitInfo: Option<Data.GitInfo>, sizeText: string, i: nat)
    requires Dates.ValidDateTime(m.timestamp) && i < |BaseKeys|
    ensures Dict.Get(OutputFields(m, gitInfo, sizeText), BaseKeys[i]) == Some(BaseValues(m, sizeText)[i])
  {
    var k := BaseKeys[i];
    var base := Dict.Zip(BaseKeys, BaseValues(m, sizeText));
    var withGit := Extend(base, "git_info", GitEntry(gitInfo));
    var withCategories := Extend(withGit, "lines_by_category", CategoriesEntry(m));
    var withLanguages := Extend(withCategories, "lines_by_language", LanguagesEntry(m));
    BaseKeysDistinct();
    Dict.ZipGet(BaseKeys, BaseValues(m, sizeText), i);
    ExtendGet(base, "git_info", GitEntry(gitInfo), k);
    ExtendGet(withGit, "lines_by_category", CategoriesEntry(m), k);
    ExtendGet(withCategories, "lines_by_language", LanguagesEntry(m), k);
    ExtendGet(withLanguages, "dependencies", DependenciesEntry(m), k);
  }

  /**
   * Every language with a line count has an entry in `lines_by_language`
   * built from its lines and its comment and blank counts, the missing
   * counts read as 0 (so, by `EntryCode`, its code lines are the rest).
   */
  lemma LanguageCodeLines(m: Data.Metrics, lang: string)
    requires Dict.Unique(m.linesByLang) && Dict.Get(m.linesByLang, lang).Some?
    ensures LanguagesEntry(m).Some?
    ensures var lines := Dict.Get(m.linesByLang, lang).value;
      var comments := Dict.GetOr(m.commentLinesByLang, lang, 0);
      var blanks := Dict.GetOr(m.blankLinesByLang, lang, 0);
      Json.Get(LanguagesEntry(m).value, lang) == Some(LanguageEntry(lines, comments, blanks))
  {
    var lbl, comments, blanks := m.linesByLang, m.commentLinesByLang, m.blankLinesByLang;
    var lines := Dict.Get(lbl, lang).value;
    var table := LanguagesUpTo(lbl, EntryFn(comments, blanks), |lbl|);
    assert LanguagesEntry(m) == Some(Json.Obj(table));
    assert Dict.Get(table, lang) == Some(LanguageEntry(lines, Dict.GetOr(comments, lang, 0), Dict.GetOr(blanks, lang, 0))) by {
      assert lbl[..|lbl|] == lbl;
      LanguagesGet(lbl, EntryFn(comments, blanks), |lbl|, lang);
    }
    assert Json.Get(LanguagesEntry(m).value, lang) == Dict.Get(table, lang);
  }

  /** `lines_by_language` lists the languages of the line counts, in their order, each with its entry. */
  lemma LanguageOrder(m: Data.Metrics)
    requires Dict.Unique(m.linesByLang) && m.linesByLang != []
    ensures LanguagesEntry(m).Some?
    ensures var fields := LanguagesEntry(m).value.fields;
      |fields| == |m.linesByLang|
      && forall i :: 0 <= i < |fields| ==>
        fields[i] == (m.linesByLang[i].0, EntryOf(m.commentLinesByLang, m.blankLinesByLang, m.linesByLang[i].0, m.linesByLang[i].1))
  {
    LanguagesAt(m.linesByLang, EntryFn(m.commentLinesByLang, m.blankLinesByLang), |m.linesByLang|);
  }
}
