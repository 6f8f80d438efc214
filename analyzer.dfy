/**
 * The analyzer: turns the scanner's file list into line metrics per
 * language and per category.
 */
module Analyzer {
  import opened Wrappers
  import opened PyStr
  import Dict
  import PyPath
  import Dates
  import Data
  import LanguageAnalyzer
  import LanguageDetector

  /** What the filesystem and the lexer say about one path. */
  datatype FileFacts = FileFacts(isFile: bool, text: string, lexing: LanguageAnalyzer.Lexing)

  /** What one analysed file contributes. */
  datatype FileStats = FileStats(lang: string, category: string, lines: nat, comments: nat, blanks: nat)

  /** The running counters of one `analyze` call. */
  datatype Totals = Totals(
    totalLines: int,
    linesByLang: Data.Counts,
    linesByCategory: Data.Counts,
    commentLines: int,
    blankLines: int,
    commentLinesByLang: Data.Counts,
    blankLinesByLang: Data.Counts)

  /** Every counter at zero, every map empty. */
  const Zero := Totals(0, [], [], 0, 0, [], [])

  /** `d[k] = d.get(k, 0) + x`. */
  function Bump(d: Data.Counts, k: string, x: int): Data.Counts {
    Dict.Set(d, k, Dict.GetOr(d, k, 0) + x)
  }

  /** `_update_metrics` on the counters as a value. */
  function AddStats(t: Totals, s: FileStats): Totals {
    Totals(
      t.totalLines + s.lines,
      Bump(t.linesByLang, s.lang, s.lines),
      Bump(t.linesByCategory, s.category, s.lines),
      t.commentLines + s.comments,
      t.blankLines + s.blanks,
      Bump(t.commentLinesByLang, s.lang, s.comments),
      Bump(t.blankLinesByLang, s.lang, s.blanks))
  }

  /** Each total is the sum of its per-language (and per-category) map. */
  predicate Consistent(t: Totals) {
    t.totalLines == Dict.Sum(t.linesByLang)
    && t.totalLines == Dict.Sum(t.linesByCategory)
    && t.commentLines == Dict.Sum(t.commentLinesByLang)
    && t.blankLines == Dict.Sum(t.blankLinesByLang)
  }

  /** Adding a file's statistics keeps every total equal to the sum of its map. */
  lemma AddStatsConsistent(t: Totals, s: FileStats)
    requires Consistent(t)
    ensures Consistent(AddStats(t, s))
  {
    var r := AddStats(t, s);
    assert Dict.Sum(r.linesByLang) == Dict.Sum(t.linesByLang) + s.lines by {
      BumpSum(t.linesByLang, s.lang, s.lines);
    }
    assert Dict.Sum(r.linesByCategory) == Dict.Sum(t.linesByCategory) + s.lines by {
      BumpSum(t.linesByCategory, s.category, s.lines);
    }
    assert Dict.Sum(r.commentLinesByLang) == Dict.Sum(t.commentLinesByLang) + s.comments by {
      BumpSum(t.commentLinesByLang, s.lang, s.comments);
    }
    assert Dict.Sum(r.blankLinesByLang) == Dict.Sum(t.blankLinesByLang) + s.blanks by {
      BumpSum(t.blankLinesByLang, s.lang, s.blanks);
    }
  }

  lemma BumpSum(d: Data.Counts, k: string, x: int)
    ensures Dict.Sum(Bump(d, k, x)) == Dict.Sum(d) + x
  {
    assert Bump(d, k, x) == Dict.Set(d, k, Dict.GetOr(d, k, 0) + x);
    Dict.SumSet(d, k, Dict.GetOr(d, k, 0) + x);
  }

  lemma BumpOther(d: Data.Counts, k: string, x: int, k': string)
    requires k' != k
    ensures Dict.Get(Bump(d, k, x), k') == Dict.Get(d, k')
  {
    Dict.SetOther(d, k, Dict.GetOr(d, k, 0) + x, k');
  }

  /** A file's statistics go to its own language and category only. */
  lemma AddStatsTargets(t: Totals, s: FileStats, lang: string, category: string)
    ensures Dict.Get(AddStats(t, s).linesByLang, s.lang) == Some(Dict.GetOr(t.linesByLang, s.lang, 0) + s.lines)
    ensures Dict.Get(AddStats(t, s).linesByCategory, s.category)
      == Some(Dict.GetOr(t.linesByCategory, s.category, 0) + s.lines)
    ensures lang != s.lang ==> Dict.Get(AddStats(t, s).linesByLang, lang) == Dict.Get(t.linesByLang, lang)
    ensures lang != s.lang ==> Dict.Get(AddStats(t, s).commentLinesByLang, lang) == Dict.Get(t.commentLinesByLang, lang)
    ensures lang != s.lang ==> Dict.Get(AddStats(t, s).blankLinesByLang, lang) == Dict.Get(t.blankLinesByLang, lang)
    ensures category != s.category ==>
      Dict.Get(AddStats(t, s).linesByCategory, category) == Dict.Get(t.linesByCategory, category)
  {
    var r := AddStats(t, s);
    if lang != s.lang {
      assert Dict.Get(r.linesByLang, lang) == Dict.Get(t.linesByLang, lang) by {
        BumpOther(t.linesByLang, s.lang, s.lines, lang);
      }
      assert Dict.Get(r.commentLinesByLang, lang) == Dict.Get(t.commentLinesByLang, lang) by {
        BumpOther(t.commentLinesByLang, s.lang, s.comments, lang);
      }
      assert Dict.Get(r.blankLinesByLang, lang) == Dict.Get(t.blankLinesByLang, lang) by {
        BumpOther(t.blankLinesByLang, s.lang, s.blanks, lang);
      }
    }
    if category != s.category {
      assert Dict.Get(r.linesByCategory, category) == Dict.Get(t.linesByCategory, category) by {
        BumpOther(t.linesByCategory, s.category, s.lines, category);
      }
    }
  }

  /** The `metrics_data` dictionary, updated in place while files are analysed. */
  class MetricsData {
    var totalLines: int
    var linesByLang: Data.Counts
    var linesByCategory: Data.Counts
    var commentLines: int
    var blankLines: int
    var commentLinesByLang: Data.Counts
    var blankLinesByLang: Data.Counts

    function State(): Totals
      reads this
    {
      Totals(totalLines, linesByLang, linesByCategory, commentLines, blankLines, commentLinesByLang, blankLinesByLang)
    }

    /** `_initialize_metrics_data`. */
    constructor ()
      ensures State() == Zero
    {
      totalLines, linesByLang, linesByCategory := 0, [], [];
      commentLines, blankLines := 0, 0;
      commentLinesByLang, blankLinesByLang := [], [];
    }

    /** `_update_metrics`. */
    method Update(s: FileStats)
      modifies this
      ensures State() == AddStats(old(State()), s)
    {
      linesByLang := Bump(linesByLang, s.lang, s.lines);
      linesByCategory := Bump(linesByCategory, s.category, s.lines);
      totalLines := totalLines + s.lines;
      commentLines := commentLines + s.comments;
      blankLines := blankLines + s.blanks;
      commentLinesByLang := Bump(commentLinesByLang, s.lang, s.comments);
      blankLinesByLang := Bump(blankLinesByLang, s.lang, s.blanks);
    }
  }

  /** `_is_binary_file`: the lower-cased suffix is one of the binary extensions. */
  predicate IsBinary(binaryExtensions: seq<string>, file: PyPath.Path) {
    Lower(PyPath.Suffix(file)) in binaryExtensions
  }

  /**
   * `_process_file` as a value: what one path contributes, or nothing for
   * a path that is not a regular file, a binary file, or a file with fewer
   * lines than the threshold.
   */
  function Contribution(
    det: LanguageDetector.Detector, binaryExtensions: seq<string>, minLines: int,
    file: PyPath.Path, facts: FileFacts): (r: Option<FileStats>)
    ensures r.None? <==>
      !facts.isFile || IsBinary(binaryExtensions, file) || |SplitLines(facts.text)| < minLines
    ensures r.Some? ==> r.value.lines == |SplitLines(facts.text)| && r.value.lines >= minLines
    ensures r.Some? ==> r.value.blanks <= r.value.lines
    ensures r.Some? ==>
      r.value.lang == LanguageDetector.Detect(det, file)
      && r.value.category == LanguageDetector.Category(det, r.value.lang)
  {
    if !facts.isFile || IsBinary(binaryExtensions, file) then None
    else
      var lines := |SplitLines(facts.text)|;
      if lines < minLines then None
      else
        var lang := LanguageDetector.Detect(det, file);
        Some(FileStats(lang, LanguageDetector.Category(det, lang), lines,
          LanguageAnalyzer.CommentCount(facts.text, facts.lexing), LanguageAnalyzer.BlankLines(facts.text)))
  }

  /** The scanned files that are not duplicates, in scan order. */
  function WithoutDuplicates(scanned: seq<PyPath.Path>, duplicates: seq<PyPath.Path>): (r: seq<PyPath.Path>)
    ensures forall f :: f in r <==> f in scanned && f !in duplicates
    ensures |r| <= |scanned|
  {
    if scanned == [] then []
    else
      var rest := WithoutDuplicates(scanned[1..], duplicates);
      assert forall f :: f in scanned <==> f == scanned[0] || f in scanned[1..];
      if scanned[0] in duplicates then rest else [scanned[0]] + rest
  }

  /** The counters after every file of `files`, in order. */
  function Tally(
    det: LanguageDetector.Detector, binaryExtensions: seq<string>, minLines: int,
    fs: PyPath.Path -> FileFacts, t: Totals, files: seq<PyPath.Path>): Totals
    decreases |files|
  {
    if files == [] then t
    else
      var t' := match Contribution(det, binaryExtensions, minLines, files[0], fs(files[0]))
        case None => t
        case Some(s) => AddStats(t, s);
      Tally(det, binaryExtensions, minLines, fs, t', files[1..])
  }

  /** Whatever the files, the counters stay consistent. */
  lemma {:induction false} TallyConsistent(
    det: LanguageDetector.Detector, binaryExtensions: seq<string>, minLines: int,
    fs: PyPath.Path -> FileFacts, t: Totals, files: seq<PyPath.Path>)
    requires Consistent(t)
    ensures Consistent(Tally(det, binaryExtensions, minLines, fs, t, files))
    decreases |files|
  {
    if files != [] {
      var c := Contribution(det, binaryExtensions, minLines, files[0], fs(files[0]));
      if c.Some? { AddStatsConsistent(t, c.value); }
      var t' := if c.Some? then AddStats(t, c.value) else t;
      TallyConsistent(det, binaryExtensions, minLines, fs, t', files[1..]);
    }
  }

  /** `_create_metrics`: sizes are copied from the scan, KB and MB are floor divisions. */
  function CreateMetrics(name: string, path: PyPath.Path, now: Dates.DateTime, scan: Data.ScanResult, t: Totals)
    : (m: Data.Metrics)
    ensures m.totalFiles == scan.totalFiles && m.totalSizeBytes == scan.totalSizeBytes
    ensures m.totalSizeKb * 1024 <= scan.totalSizeBytes < (m.totalSizeKb + 1) * 1024
    ensures m.totalSizeMb * 1048576 <= scan.totalSizeBytes < (m.totalSizeMb + 1) * 1048576
    ensures m.linesByLang == t.linesByLang && m.linesByCategory == t.linesByCategory
    ensures m.commentLinesByLang == t.commentLinesByLang && m.blankLinesByLang == t.blankLinesByLang
    ensures m.totalLines == t.totalLines && m.commentLines == t.commentLines && m.blankLines == t.blankLines
    ensures m.dependencies.None?
  {
    Data.Metrics(name, path, now, scan.totalFiles, scan.totalSizeBytes,
      scan.totalSizeBytes / 1024, scan.totalSizeBytes / (1024 * 1024),
      t.linesByLang, t.commentLinesByLang, t.blankLinesByLang, t.linesByCategory,
      t.commentLines, t.blankLines, t.totalLines, None)
  }

  /** The metrics `analyze` returns for a scan, as a function of its inputs alone. */
  function AnalyzeSpec(
    name: string, path: PyPath.Path, det: LanguageDetector.Detector, binaryExtensions: seq<string>,
    minLines: int, scan: Data.ScanResult, fs: PyPath.Path -> FileFacts, now: Dates.DateTime): Data.Metrics
  {
    var files := WithoutDuplicates(scan.scannedFiles, scan.duplicateFiles);
    CreateMetrics(name, path, now, scan, Tally(det, binaryExtensions, minLines, fs, Zero, files))
  }

  /** In every analysis result each total is the sum of its per-language and per-category map. */
  lemma AnalyzeSums(
    name: string, path: PyPath.Path, det: LanguageDetector.Detector, binaryExtensions: seq<string>,
    minLines: int, scan: Data.ScanResult, fs: PyPath.Path -> FileFacts, now: Dates.DateTime)
    ensures var m := AnalyzeSpec(name, path, det, binaryExtensions, minLines, scan, fs, now);
      m.totalLines == Dict.Sum(m.linesByLang) && m.totalLines == Dict.Sum(m.linesByCategory)
      && m.commentLines == Dict.Sum(m.commentLinesByLang) && m.blankLines == Dict.Sum(m.blankLinesByLang)
  {
    var files := WithoutDuplicates(scan.scannedFiles, scan.duplicateFiles);
    TallyConsistent(det, binaryExtensions, minLines, fs, Zero, files);
  }

  /** Duplicates, binary files and files under the threshold add nothing to any counter. */
  lemma SkippedFileAddsNothing(
    det: LanguageDetector.Detector, binaryExtensions: seq<string>, minLines: int,
    fs: PyPath.Path -> FileFacts, t: Totals, file: PyPath.Path, rest: seq<PyPath.Path>)
    requires !fs(file).isFile || IsBinary(binaryExtensions, file) || |SplitLines(fs(file).text)| < minLines
    ensures Tally(det, binaryExtensions, minLines, fs, t, [file] + rest)
      == Tally(det, binaryExtensions, minLines, fs, t, rest)
  {
    assert ([file] + rest)[1..] == rest;
  }

  /** The analyzer: project name and path, language tables and the analysis settings. */
  class Analyzer {
    const name: string
    const path: PyPath.Path
    const detector: LanguageDetector.Detector
    const binaryExtensions: seq<string>
    const minLinesThreshold: int

    /** The detector is the one `LanguageDetector.LoadLanguageMap` built for this analyzer. */
    constructor (name: string, path: PyPath.Path, detector: LanguageDetector.Detector,
                 binaryExtensions: seq<string>, minLinesThreshold: int)
      ensures this.name == name && this.path == path && this.detector == detector
      ensures this.binaryExtensions == binaryExtensions && this.minLinesThreshold == minLinesThreshold
    {
      this.name := name;
      this.path := path;
      this.detector := detector;
      this.binaryExtensions := binaryExtensions;
      this.minLinesThreshold := minLinesThreshold;
    }

    /** `_process_file`. */
    method ProcessFile(file: PyPath.Path, facts: FileFacts, data: MetricsData)
      requires facts.isFile
      modifies data
      ensures data.State() == match Contribution(detector, binaryExtensions, minLinesThreshold, file, facts)
        case None => old(data.State())
        case Some(s) => AddStats(old(data.State()), s)
    {
      if IsBinary(binaryExtensions, file) {
        return;
      }
      var text := facts.text;
      var lines := |SplitLines(text)|;
      if lines < minLinesThreshold {
        return;
      }
      var lang := LanguageDetector.Detect(detector, file);
      var category := LanguageDetector.Category(detector, lang);
      var comments, blanks := LanguageAnalyzer.Analyze(text, facts.lexing);
      var stats := FileStats(lang, category, lines, comments, blanks);
      assert Contribution(detector, binaryExtensions, minLinesThreshold, file, facts) == Some(stats);
      data.Update(stats);
    }

    /**
     * `analyze`: counters start from zero on every call, duplicates are
     * dropped, and every remaining regular file is processed in order.
     */
    method Analyze(scan: Data.ScanResult, fs: PyPath.Path -> FileFacts, now: Dates.DateTime)
      returns (m: Data.Metrics)
      ensures m == AnalyzeSpec(name, path, detector, binaryExtensions, minLinesThreshold, scan, fs, now)
    {
      var data := new MetricsData();
      var files := WithoutDuplicates(scan.scannedFiles, scan.duplicateFiles);
      for i := 0 to |files|
        invariant Tally(detector, binaryExtensions, minLinesThreshold, fs, data.State(), files[i..])
          == Tally(detector, binaryExtensions, minLinesThreshold, fs, Zero, files)
      {
        assert files[i..][1..] == files[i + 1..];
        var file := files[i];
        if fs(file).isFile {
          ProcessFile(file, fs(file), data);
        }
      }
      assert files[|files|..] == [];
      m := CreateMetrics(name, path, now, scan, data.State());
    }
  }
}
