/**
 * Comparison of two metrics snapshots: every delta is "second minus first",
 * and a per-language or per-category delta is absent (`None`) when either
 * snapshot lacks the value.
 */
module Comparison {
  import opened Wrappers
  import Dict
  import StrOrder
  import Dates
  import Data

  type Metrics = Data.Metrics

  /** The seven overall deltas, under their dictionary key names. */
  datatype Overall = Overall(
    totalFiles: int,
    totalLines: int,
    totalSizeBytes: int,
    totalSizeKb: int,
    totalSizeMb: int,
    commentLines: int,
    blankLines: int)

  /** The deltas of one language: lines, comments and blank lines. */
  datatype LangDelta = LangDelta(lines: Option<int>, comments: Option<int>, blank: Option<int>)

  /** The three delta groups: `overall`, `by_language`, `by_category`. */
  datatype Deltas = Deltas(
    overall: Overall,
    byLanguage: Dict.Dict<string, LangDelta>,
    byCategory: Dict.Dict<string, Option<int>>)

  datatype ComparisonResult = ComparisonResult(
    project1: Metrics,
    project2: Metrics,
    deltas: Deltas,
    timestamp: Dates.DateTime)

  /** `p2 - p1` when both are present, else `None`. */
  function Delta(p1: Option<int>, p2: Option<int>): (r: Option<int>)
    ensures r.Some? <==> p1.Some? && p2.Some?
    ensures r.Some? ==> p1.value + r.value == p2.value
  {
    if p1.Some? && p2.Some? then Some(p2.value - p1.value) else None
  }

  function Negate(d: Option<int>): Option<int> {
    if d.Some? then Some(-d.value) else None
  }

  function OverallDeltas(p1: Metrics, p2: Metrics): Overall {
    Overall(
      p2.totalFiles - p1.totalFiles,
      p2.totalLines - p1.totalLines,
      p2.totalSizeBytes - p1.totalSizeBytes,
      p2.totalSizeKb - p1.totalSizeKb,
      p2.totalSizeMb - p1.totalSizeMb,
      p2.commentLines - p1.commentLines,
      p2.blankLines - p1.blankLines)
  }

  /** Adding the overall deltas to the first snapshot's totals gives the second's. */
  lemma OverallRecovers(p1: Metrics, p2: Metrics)
    ensures var d := OverallDeltas(p1, p2);
      p1.totalFiles + d.totalFiles == p2.totalFiles &&
      p1.totalLines + d.totalLines == p2.totalLines &&
      p1.totalSizeBytes + d.totalSizeBytes == p2.totalSizeBytes &&
      p1.totalSizeKb + d.totalSizeKb == p2.totalSizeKb &&
      p1.totalSizeMb + d.totalSizeMb == p2.totalSizeMb &&
      p1.commentLines + d.commentLines == p2.commentLines &&
      p1.blankLines + d.blankLines == p2.blankLines
  {
  }

  /** A snapshot compared with itself has no overall change. */
  lemma OverallSelfZero(p: Metrics)
    ensures OverallDeltas(p, p) == Overall(0, 0, 0, 0, 0, 0, 0)
  {
  }

  /** Swapping the snapshots negates every overall delta. */
  lemma OverallSwap(p1: Metrics, p2: Metrics)
    ensures var d, e := OverallDeltas(p1, p2), OverallDeltas(p2, p1);
      e == Overall(-d.totalFiles, -d.totalLines, -d.totalSizeBytes, -d.totalSizeKb,
                   -d.totalSizeMb, -d.commentLines, -d.blankLines)
  {
  }

  function LangDeltaOf(p1: Metrics, p2: Metrics, lang: string): LangDelta {
    LangDelta(
      Delta(Dict.Get(p1.linesByLang, lang), Dict.Get(p2.linesByLang, lang)),
      Delta(Dict.Get(p1.commentLinesByLang, lang), Dict.Get(p2.commentLinesByLang, lang)),
      Delta(Dict.Get(p1.blankLinesByLang, lang), Dict.Get(p2.blankLinesByLang, lang)))
  }

  function CategoryDeltaOf(p1: Metrics, p2: Metrics, cat: string): Option<int> {
    Delta(Dict.Get(p1.linesByCategory, cat), Dict.Get(p2.linesByCategory, cat))
  }

  /** `sorted(set(p1.lines_by_lang) | set(p2.lines_by_lang))`. */
  function AllLanguages(p1: Metrics, p2: Metrics): seq<string> {
    StrOrder.SortedSet(Dict.Keys(p1.linesByLang) + Dict.Keys(p2.linesByLang))
  }

  /** `sorted(set(p1.lines_by_category) | set(p2.lines_by_category))`. */
  function AllCategories(p1: Metrics, p2: Metrics): seq<string> {
    StrOrder.SortedSet(Dict.Keys(p1.linesByCategory) + Dict.Keys(p2.linesByCategory))
  }

  /** The language deltas of `langs`, one entry per name, in order. */
  function LanguageTable(p1: Metrics, p2: Metrics, langs: seq<string>): Dict.Dict<string, LangDelta> {
    if langs == [] then []
    else
      var last := langs[|langs| - 1];
      LanguageTable(p1, p2, langs[..|langs| - 1]) + [(last, LangDeltaOf(p1, p2, last))]
  }

  /** The category deltas of `cats`, one entry per name, in order. */
  function CategoryTable(p1: Metrics, p2: Metrics, cats: seq<string>): Dict.Dict<string, Option<int>> {
    if cats == [] then []
    else
      var last := cats[|cats| - 1];
      CategoryTable(p1, p2, cats[..|cats| - 1]) + [(last, CategoryDeltaOf(p1, p2, last))]
  }

  /** The per-language deltas: one entry per language of either snapshot, in sorted order. */
  function ByLanguage(p1: Metrics, p2: Metrics): (r: Dict.Dict<string, LangDelta>)
    ensures StrOrder.StrictlySorted(Dict.Keys(r))
    ensures forall lang :: lang in Dict.Keys(r) <==> lang in Dict.Keys(p1.linesByLang) || lang in Dict.Keys(p2.linesByLang)
  {
    LanguageTableGet(p1, p2, AllLanguages(p1, p2), "");
    LanguageTable(p1, p2, AllLanguages(p1, p2))
  }

  /** The per-category deltas: one entry per category of either snapshot, in sorted order. */
  function ByCategory(p1: Metrics, p2: Metrics): (r: Dict.Dict<string, Option<int>>)
    ensures StrOrder.StrictlySorted(Dict.Keys(r))
    ensures forall cat :: cat in Dict.Keys(r) <==> cat in Dict.Keys(p1.linesByCategory) || cat in Dict.Keys(p2.linesByCategory)
  {
    CategoryTableGet(p1, p2, AllCategories(p1, p2), "");
    CategoryTable(p1, p2, AllCategories(p1, p2))
  }

  function AllDeltas(p1: Metrics, p2: Metrics): Deltas {
    Deltas(OverallDeltas(p1, p2), ByLanguage(p1, p2), ByCategory(p1, p2))
  }

  lemma {:induction false} LanguageTableGet(p1: Metrics, p2: Metrics, langs: seq<string>, k: string)
    ensures Dict.Get(LanguageTable(p1, p2, langs), k) == if k in langs then Some(LangDeltaOf(p1, p2, k)) else None
    ensures Dict.Keys(LanguageTable(p1, p2, langs)) == langs
  {
    if langs != [] {
      var init, last := langs[..|langs| - 1], langs[|langs| - 1];
      LanguageTableGet(p1, p2, init, k);
      Dict.GetAppend(LanguageTable(p1, p2, init), last, LangDeltaOf(p1, p2, last), k);
      assert langs == init + [last];
    }
  }

  lemma {:induction false} CategoryTableGet(p1: Metrics, p2: Metrics, cats: seq<string>, k: string)
    ensures Dict.Get(CategoryTable(p1, p2, cats), k) == if k in cats then Some(CategoryDeltaOf(p1, p2, k)) else None
    ensures Dict.Keys(CategoryTable(p1, p2, cats)) == cats
  {
    if cats != [] {
      var init, last := cats[..|cats| - 1], cats[|cats| - 1];
      CategoryTableGet(p1, p2, init, k);
      Dict.GetAppend(CategoryTable(p1, p2, init), last, CategoryDeltaOf(p1, p2, last), k);
      assert cats == init + [last];
    }
  }

  /**
   * The language table has one entry per language of either snapshot, in
   * sorted order; each field is `None` exactly when that field's count is
   * missing from either snapshot, and otherwise is the second count minus
   * the first.
   */
  lemma ByLanguageSpec(p1: Metrics, p2: Metrics, lang: string)
    ensures StrOrder.StrictlySorted(Dict.Keys(ByLanguage(p1, p2)))
    ensures lang in Dict.Keys(ByLanguage(p1, p2)) <==>
      Dict.Get(p1.linesByLang, lang).Some? || Dict.Get(p2.linesByLang, lang).Some?
    ensures Dict.Get(ByLanguage(p1, p2), lang).Some? ==> Dict.Get(ByLanguage(p1, p2), lang).value == LangDeltaOf(p1, p2, lang)
  {
    LanguageTableGet(p1, p2, AllLanguages(p1, p2), lang);
    KeysGet(p1.linesByLang, lang);
    KeysGet(p2.linesByLang, lang);
  }

  /** The category table, likewise, over the categories of either snapshot. */
  lemma ByCategorySpec(p1: Metrics, p2: Metrics, cat: string)
    ensures StrOrder.StrictlySorted(Dict.Keys(ByCategory(p1, p2)))
    ensures cat in Dict.Keys(ByCategory(p1, p2)) <==>
      Dict.Get(p1.linesByCategory, cat).Some? || Dict.Get(p2.linesByCategory, cat).Some?
    ensures Dict.Get(ByCategory(p1, p2), cat).Some? ==> Dict.Get(ByCategory(p1, p2), cat).value == CategoryDeltaOf(p1, p2, cat)
  {
    CategoryTableGet(p1, p2, AllCategories(p1, p2), cat);
    KeysGet(p1.linesByCategory, cat);
    KeysGet(p2.linesByCategory, cat);
  }

  lemma KeysGet<V>(d: Dict.Dict<string, V>, k: string)
    ensures k in Dict.Keys(d) <==> Dict.Get(d, k).Some?
  {
    Dict.GetNone(d, k);
    if Dict.Get(d, k).Some? {
      var i :| 0 <= i < |d| && d[i].0 == k;
      assert Dict.Keys(d)[i] == k;
    }
  }

  /** Comparing a snapshot with itself: every present count has delta zero. */
  lemma SelfCompare(p: Metrics, lang: string, cat: string)
    ensures Dict.Get(ByLanguage(p, p), lang).Some? ==>
      Dict.Get(ByLanguage(p, p), lang).value.lines == Some(0)
    ensures Dict.Get(ByLanguage(p, p), lang).Some? ==>
      var d := Dict.Get(ByLanguage(p, p), lang).value;
      d.comments == (if Dict.Get(p.commentLinesByLang, lang).Some? then Some(0) else None) &&
      d.blank == (if Dict.Get(p.blankLinesByLang, lang).Some? then Some(0) else None)
    ensures Dict.Get(ByCategory(p, p), cat).Some? ==> Dict.Get(ByCategory(p, p), cat).value == Some(0)
  {
    LanguageTableGet(p, p, AllLanguages(p, p), lang);
    CategoryTableGet(p, p, AllCategories(p, p), cat);
    KeysGet(p.linesByLang, lang);
    KeysGet(p.linesByCategory, cat);
  }

  lemma DeltaSwap(a: Option<int>, b: Option<int>)
    ensures Delta(b, a) == Negate(Delta(a, b))
  {
  }

  /** The union of two key lists, sorted, does not depend on their order. */
  lemma SortedUnionSwap(k1: seq<string>, k2: seq<string>)
    ensures StrOrder.SortedSet(k1 + k2) == StrOrder.SortedSet(k2 + k1)
  {
    var a, b := StrOrder.SortedSet(k1 + k2), StrOrder.SortedSet(k2 + k1);
    forall y ensures y in a <==> y in b {
      assert y in k1 + k2 <==> y in k1 || y in k2;
      assert y in k2 + k1 <==> y in k2 || y in k1;
    }
    StrOrder.StrictlySortedUnique(a, b);
  }

  /** Swapping the snapshots keeps every language and negates every present delta. */
  lemma SwapLanguage(p1: Metrics, p2: Metrics, lang: string)
    ensures Dict.Get(ByLanguage(p2, p1), lang).Some? <==> Dict.Get(ByLanguage(p1, p2), lang).Some?
    ensures Dict.Get(ByLanguage(p2, p1), lang).Some? ==>
      var d, e := Dict.Get(ByLanguage(p1, p2), lang).value, Dict.Get(ByLanguage(p2, p1), lang).value;
      e == LangDelta(Negate(d.lines), Negate(d.comments), Negate(d.blank))
  {
    SortedUnionSwap(Dict.Keys(p1.linesByLang), Dict.Keys(p2.linesByLang));
    var langs := AllLanguages(p1, p2);
    LanguageTableGet(p1, p2, langs, lang);
    LanguageTableGet(p2, p1, langs, lang);
    DeltaSwap(Dict.Get(p1.linesByLang, lang), Dict.Get(p2.linesByLang, lang));
    DeltaSwap(Dict.Get(p1.commentLinesByLang, lang), Dict.Get(p2.commentLinesByLang, lang));
    DeltaSwap(Dict.Get(p1.blankLinesByLang, lang), Dict.Get(p2.blankLinesByLang, lang));
  }

  /** Swapping the snapshots keeps every category and negates every present delta. */
  lemma SwapCategory(p1: Metrics, p2: Metrics, cat: string)
    ensures Dict.Get(ByCategory(p2, p1), cat) == Negate'(Dict.Get(ByCategory(p1, p2), cat))
  {
    SortedUnionSwap(Dict.Keys(p1.linesByCategory), Dict.Keys(p2.linesByCategory));
    var cats := AllCategories(p1, p2);
    CategoryTableGet(p1, p2, cats, cat);
    CategoryTableGet(p2, p1, cats, cat);
    DeltaSwap(Dict.Get(p1.linesByCategory, cat), Dict.Get(p2.linesByCategory, cat));
  }

  function Negate'(d: Option<Option<int>>): Option<Option<int>> {
    if d.Some? then Some(Negate(d.value)) else None
  }

  /** Assigning the next name of a sorted name list appends its entry. */
  lemma LanguageTableStep(p1: Metrics, p2: Metrics, langs: seq<string>, i: nat)
    requires StrOrder.StrictlySorted(langs) && i < |langs|
    ensures Dict.Set(LanguageTable(p1, p2, langs[..i]), langs[i], LangDeltaOf(p1, p2, langs[i]))
         == LanguageTable(p1, p2, langs[..i + 1])
  {
    var lang := langs[i];
    assert lang !in langs[..i] by {
      StrOrder.LessIrreflexive(lang);
    }
    LanguageTableGet(p1, p2, langs[..i], lang);
    Dict.SetNew(LanguageTable(p1, p2, langs[..i]), lang, LangDeltaOf(p1, p2, lang));
    assert langs[..i + 1][..i] == langs[..i];
  }

  lemma CategoryTableStep(p1: Metrics, p2: Metrics, cats: seq<string>, i: nat)
    requires StrOrder.StrictlySorted(cats) && i < |cats|
    ensures Dict.Set(CategoryTable(p1, p2, cats[..i]), cats[i], CategoryDeltaOf(p1, p2, cats[i]))
         == CategoryTable(p1, p2, cats[..i + 1])
  {
    var cat := cats[i];
    assert cat !in cats[..i] by {
      StrOrder.LessIrreflexive(cat);
    }
    CategoryTableGet(p1, p2, cats[..i], cat);
    Dict.SetNew(CategoryTable(p1, p2, cats[..i]), cat, CategoryDeltaOf(p1, p2, cat));
    assert cats[..i + 1][..i] == cats[..i];
  }

  /** `_delta_by_language`: one entry per language of the sorted union. */
  method DeltaByLanguage(p1: Metrics, p2: Metrics) returns (r: Dict.Dict<string, LangDelta>)
    ensures r == ByLanguage(p1, p2)
  {
    var langs := AllLanguages(p1, p2);
    r := [];
    for i := 0 to |langs|
      invariant r == LanguageTable(p1, p2, langs[..i])
    {
      var lang := langs[i];
      var delta := LangDeltaOf(p1, p2, lang);
      LanguageTableStep(p1, p2, langs, i);
      r := Dict.Set(r, lang, delta);
    }
    assert langs[..|langs|] == langs;
  }

  /** `_delta_by_category`: one entry per category of the sorted union. */
  method DeltaByCategory(p1: Metrics, p2: Metrics) returns (r: Dict.Dict<string, Option<int>>)
    ensures r == ByCategory(p1, p2)
  {
    var cats := AllCategories(p1, p2);
    r := [];
    for i := 0 to |cats|
      invariant r == CategoryTable(p1, p2, cats[..i])
    {
      var cat := cats[i];
      var delta := CategoryDeltaOf(p1, p2, cat);
      CategoryTableStep(p1, p2, cats, i);
      r := Dict.Set(r, cat, delta);
    }
    assert cats[..|cats|] == cats;
  }

  /** `compare`: both snapshots unchanged, the three delta groups, and the clock reading. */
  method Compare(p1: Metrics, p2: Metrics, now: Dates.DateTime) returns (r: ComparisonResult)
    ensures r.project1 == p1 && r.project2 == p2 && r.timestamp == now
    ensures r.deltas == AllDeltas(p1, p2)
  {
    var byLanguage := DeltaByLanguage(p1, p2);
    var byCategory := DeltaByCategory(p1, p2);
    r := ComparisonResult(p1, p2, Deltas(OverallDeltas(p1, p2), byLanguage, byCategory), now);
  }
}
