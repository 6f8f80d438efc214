/**
 * The directory scanner's bookkeeping: which paths are ignored or skipped,
 * the running totals, the first-seen duplicate index and the per-directory
 * skip counters. Directory walking, `stat`, reading, hashing and glob
 * matching are the opaque functions of a `FileSystem` value.
 */
module Scanner {
  import opened Wrappers
  import opened PyStr
  import Dict
  import PyPath
  import PyInt
  import StrOrder
  import Data

  type Path = PyPath.Path

  /**
   * What the scanner asks of the outside world. `readText` is `None` when
   * reading the file raised; `fileHash` and `textHash` stand for the
   * SHA-256 hex digests of the file's bytes and of a text's UTF-8 bytes;
   * `matches` is `Path.match`.
   */
  datatype FileSystem = FileSystem(
    isFile: Path -> bool,
    size: Path -> nat,
    readText: Path -> Option<string>,
    fileHash: Path -> string,
    textHash: string -> string,
    matches: (Path, string) -> bool)

  /** The scanner's configuration, with the size bounds already converted to bytes. */
  datatype Settings = Settings(
    root: Path,
    ignore: seq<string>,
    binaryExtensions: seq<string>,
    minBytes: int,
    maxBytes: int,
    duplicateThreshold: int)

  /** The contents of the `scan_data` accumulator. */
  datatype ScanState = ScanState(
    totalFiles: int,
    totalSizeBytes: int,
    scannedFiles: seq<Path>,
    skippedByDir: Dict.Dict<string, int>,
    hashIndex: Dict.Dict<string, Path>,
    duplicateFiles: seq<Path>,
    fileContents: Dict.Dict<Path, Option<string>>)

  /** `_initialize_scan_data`: zero counters and empty collections. */
  const Initial: ScanState := ScanState(0, 0, [], [], [], [], [])

  // ---------------------------------------------------------------------
  // Ignore rules

  /** `any(p.match(pattern) for pattern in ignore)`. */
  predicate AnyMatch(fs: FileSystem, ignore: seq<string>, p: Path) {
    exists i :: 0 <= i < |ignore| && fs.matches(p, ignore[i])
  }

  /**
   * The first candidate that matches a pattern, giving up after the root
   * has been inspected.
   */
  function FirstMatch(fs: FileSystem, ignore: seq<string>, root: Path, cands: seq<Path>): (r: Option<Path>)
    ensures r.Some? ==> r.value in cands && AnyMatch(fs, ignore, r.value)
  {
    if cands == [] then None
    else if AnyMatch(fs, ignore, cands[0]) then Some(cands[0])
    else if cands[0] == root then None
    else FirstMatch(fs, ignore, root, cands[1..])
  }

  /** A candidate matches before the search reaches past the root. */
  lemma {:induction false} FirstMatchFound(fs: FileSystem, ignore: seq<string>, root: Path, cands: seq<Path>)
    ensures FirstMatch(fs, ignore, root, cands).Some? <==>
      exists i :: 0 <= i < |cands| && AnyMatch(fs, ignore, cands[i]) && forall k :: 0 <= k < i ==> cands[k] != root
  {
    if cands != [] {
      FirstMatchFound(fs, ignore, root, cands[1..]);
      if FirstMatch(fs, ignore, root, cands).Some? {
        if !AnyMatch(fs, ignore, cands[0]) {
          var i :| 0 <= i < |cands[1..]| && AnyMatch(fs, ignore, cands[1..][i])
            && forall k :: 0 <= k < i ==> cands[1..][k] != root;
          assert forall k :: 0 <= k < i + 1 ==> cands[k] != root by {
            forall k | 0 <= k < i + 1 ensures cands[k] != root {
              if k > 0 { assert cands[k] == cands[1..][k - 1]; }
            }
          }
        }
      } else {
        forall i | 0 <= i < |cands| && AnyMatch(fs, ignore, cands[i])
          ensures exists k :: 0 <= k < i && cands[k] == root
        {
          assert i > 0;
          if cands[0] != root {
            assert AnyMatch(fs, ignore, cands[1..][i - 1]);
            var k :| 0 <= k < i - 1 && cands[1..][k] == root;
            assert cands[k + 1] == root;
          }
        }
      }
    }
  }

  /**
   * `_should_ignore`: the path itself matches, or one of its parents up to
   * and including the root does.
   */
  predicate Ignored(s: Settings, fs: FileSystem, p: Path) {
    AnyMatch(fs, s.ignore, p) || FirstMatch(fs, s.ignore, s.root, PyPath.Parents(p)).Some?
  }

  /** `_find_ignore_match`: the nearest of the path and its parents that matches, up to the root. */
  function IgnoreMatch(s: Settings, fs: FileSystem, p: Path): (r: Option<Path>)
    ensures r.Some? ==> AnyMatch(fs, s.ignore, r.value)
  {
    FirstMatch(fs, s.ignore, s.root, [p] + PyPath.Parents(p))
  }

  /** For any path other than the root, being ignored and having an ignore match agree. */
  lemma IgnoredIffMatch(s: Settings, fs: FileSystem, p: Path)
    requires p != s.root
    ensures Ignored(s, fs, p) <==> IgnoreMatch(s, fs, p).Some?
  {
    assert ([p] + PyPath.Parents(p))[1..] == PyPath.Parents(p);
  }

  /**
   * When the root is the `j`-th parent of `p`, `p` is ignored exactly when
   * it or one of its first `j + 1` parents (the root included) matches.
   */
  lemma IgnoredUpToRoot(s: Settings, fs: FileSystem, p: Path, j: nat)
    requires j < |PyPath.Parents(p)| && PyPath.Parents(p)[j] == s.root
    ensures Ignored(s, fs, p) <==>
      AnyMatch(fs, s.ignore, p) || exists i :: 0 <= i <= j && AnyMatch(fs, s.ignore, PyPath.Parents(p)[i])
  {
    var ps := PyPath.Parents(p);
    FirstMatchFound(fs, s.ignore, s.root, ps);
    forall k | 0 <= k < j ensures ps[k] != s.root {
      assert |ps[k].parts| > |ps[j].parts|;
    }
    if exists i :: 0 <= i < |ps| && AnyMatch(fs, s.ignore, ps[i]) && forall k :: 0 <= k < i ==> ps[k] != s.root {
      var i :| 0 <= i < |ps| && AnyMatch(fs, s.ignore, ps[i]) && forall k :: 0 <= k < i ==> ps[k] != s.root;
      assert i <= j;
    }
  }

  // ---------------------------------------------------------------------
  // Skip groups, size bounds and duplicate keys

  /**
   * `_get_skip_group_key`: the directory of the nearest ignore match (or of
   * the path), relative to the root when it lies below it, with exactly one
   * trailing slash; "./" for the root itself.
   */
  function SkipGroupKey(s: Settings, fs: FileSystem, p: Path): (r: string)
    ensures |r| >= 1 && r[|r| - 1] == '/'
    ensures |r| >= 2 ==> r[|r| - 2] != '/'
  {
    var m0 := match IgnoreMatch(s, fs, p) case Some(m) => m case None => PyPath.Parent(p);
    var m := if fs.isFile(m0) then PyPath.Parent(m0) else m0;
    var rel := match PyPath.RelativeTo(m, s.root) case Some(r) => r case None => m;
    if rel == PyPath.Path("", []) then "./"
    else RStripChar(PyPath.AsPosix(rel), '/') + "/"
  }

  /** `_within_size_bounds`: both bounds inclusive. */
  predicate WithinSizeBounds(s: Settings, size: int) {
    s.minBytes <= size <= s.maxBytes
  }

  /** A non-binary file whose text is read and stored. */
  predicate IsText(s: Settings, p: Path) {
    Lower(PyPath.Suffix(p)) !in s.binaryExtensions
  }

  /**
   * The duplicate key "size:digest": the digest of the stored text when
   * there is one, otherwise the digest of the file's bytes.
   */
  function DuplicateKey(fs: FileSystem, p: Path, size: int, contents: Dict.Dict<Path, Option<string>>): string {
    var stored := Dict.Get(contents, p);
    var digest := if stored.Some? && stored.value.Some? then fs.textHash(stored.value.value) else fs.fileHash(p);
    PyInt.IntToStr(size) + ":" + digest
  }

  /** The key a file gets when it is scanned for the first time. */
  function FileKey(s: Settings, fs: FileSystem, p: Path): string {
    var digest := if IsText(s, p) && fs.readText(p).Some? then fs.textHash(fs.readText(p).value) else fs.fileHash(p);
    PyInt.IntToStr(fs.size(p)) + ":" + digest
  }

  // ---------------------------------------------------------------------
  // One path, and a whole scan, as functions of the accumulator

  /** `_record_skipped_path`: one more skip under `key`. */
  function RecordSkipped(st: ScanState, key: string): ScanState {
    st.(skippedByDir := Dict.Set(st.skippedByDir, key, Dict.GetOr(st.skippedByDir, key, 0) + 1))
  }

  /** Recording a skip adds 1 to the counter of `key`, and so to the sum, and changes no other counter. */
  lemma RecordSkippedCounts(st: ScanState, key: string)
    ensures var d' := RecordSkipped(st, key).skippedByDir;
      && Dict.Sum(d') == Dict.Sum(st.skippedByDir) + 1
      && Dict.GetOr(d', key, 0) == Dict.GetOr(st.skippedByDir, key, 0) + 1
      && forall k :: k != key ==> Dict.Get(d', k) == Dict.Get(st.skippedByDir, k)
  {
    var d := st.skippedByDir;
    Dict.SumAdd(d, key, 1);
    forall k | k != key ensures Dict.Get(Dict.Set(d, key, Dict.GetOr(d, key, 0) + 1), k) == Dict.Get(d, k) {
      Dict.SetOther(d, key, Dict.GetOr(d, key, 0) + 1, k);
    }
  }

  /** `_store_file_content_if_text`. */
  function StoreContent(s: Settings, fs: FileSystem, st: ScanState, p: Path): ScanState {
    if IsText(s, p) then st.(fileContents := Dict.Set(st.fileContents, p, fs.readText(p))) else st
  }

  /** `_maybe_record_duplicate`: index the first file with a key, list the later ones. */
  function RecordDuplicate(s: Settings, fs: FileSystem, st: ScanState, p: Path, size: int): ScanState {
    if size < s.duplicateThreshold then st
    else
      var key := DuplicateKey(fs, p, size, st.fileContents);
      if Dict.Get(st.hashIndex, key).None? then st.(hashIndex := Dict.Set(st.hashIndex, key, p))
      else st.(duplicateFiles := st.duplicateFiles + [p])
  }

  /** A path that is counted: not ignored, a regular file, and within the size bounds. */
  predicate Accepted(s: Settings, fs: FileSystem, p: Path) {
    !Ignored(s, fs, p) && fs.isFile(p) && WithinSizeBounds(s, fs.size(p))
  }

  /** A path that is recorded as skipped: ignored, or a file outside the size bounds. */
  predicate Skipped(s: Settings, fs: FileSystem, p: Path) {
    Ignored(s, fs, p) || (fs.isFile(p) && !WithinSizeBounds(s, fs.size(p)))
  }

  /** The accepted-file branch of `_process_path`: count, store, check for a duplicate, list. */
  function Accept(s: Settings, fs: FileSystem, st: ScanState, p: Path): (r: ScanState)
    ensures r.scannedFiles == st.scannedFiles + [p]
    ensures r.totalFiles == st.totalFiles + 1 && r.totalSizeBytes == st.totalSizeBytes + fs.size(p)
    ensures r.skippedByDir == st.skippedByDir
    ensures r.duplicateFiles == st.duplicateFiles
      || (fs.size(p) >= s.duplicateThreshold && r.duplicateFiles == st.duplicateFiles + [p])
  {
    var size := fs.size(p);
    var st1 := st.(totalFiles := st.totalFiles + 1, totalSizeBytes := st.totalSizeBytes + size);
    var st2 := StoreContent(s, fs, st1, p);
    var st3 := RecordDuplicate(s, fs, st2, p, size);
    st3.(scannedFiles := st3.scannedFiles + [p])
  }

  /** `_process_path`. */
  function Step(s: Settings, fs: FileSystem, st: ScanState, p: Path): ScanState {
    if Ignored(s, fs, p) then RecordSkipped(st, SkipGroupKey(s, fs, p))
    else if !fs.isFile(p) then st
    else if !WithinSizeBounds(s, fs.size(p)) then RecordSkipped(st, SkipGroupKey(s, fs, p))
    else Accept(s, fs, st, p)
  }

  /** The scan loop: every path in turn. */
  function Run(s: Settings, fs: FileSystem, st: ScanState, paths: seq<Path>): ScanState
    decreases |paths|
  {
    if paths == [] then st else Run(s, fs, Step(s, fs, st, paths[0]), paths[1..])
  }

  /** The `ScanResult` built from the accumulator; an empty content map becomes `None`. */
  function ResultOf(st: ScanState): Data.ScanResult {
    Data.ScanResult(st.totalFiles, st.totalSizeBytes, st.scannedFiles, st.duplicateFiles,
      if st.fileContents == [] then None else Some(st.fileContents))
  }

  /** The accepted paths, in order. */
  function AcceptedOf(s: Settings, fs: FileSystem, paths: seq<Path>): seq<Path> {
    if paths == [] then []
    else (if Accepted(s, fs, paths[0]) then [paths[0]] else []) + AcceptedOf(s, fs, paths[1..])
  }

  /** Number of skipped paths. */
  function SkippedCount(s: Settings, fs: FileSystem, paths: seq<Path>): nat {
    if paths == [] then 0
    else (if Skipped(s, fs, paths[0]) then 1 else 0) + SkippedCount(s, fs, paths[1..])
  }

  /** Total size of a list of files. */
  function SizeSum(fs: FileSystem, files: seq<Path>): int {
    if files == [] then 0 else SizeSum(fs, files[..|files| - 1]) + fs.size(files[|files| - 1])
  }

  /** The invariant of the accumulator. */
  predicate Consistent(fs: FileSystem, st: ScanState) {
    && st.totalFiles == |st.scannedFiles|
    && st.totalSizeBytes == SizeSum(fs, st.scannedFiles)
    && forall q :: q in st.duplicateFiles ==> q in st.scannedFiles
  }

  /** An accepted file is counted, sized and listed once; any other path changes none of these. */
  lemma StepCounts(s: Settings, fs: FileSystem, st: ScanState, p: Path)
    ensures var st' := Step(s, fs, st, p);
      && st'.scannedFiles == st.scannedFiles + (if Accepted(s, fs, p) then [p] else [])
      && st'.totalFiles == st.totalFiles + (if Accepted(s, fs, p) then 1 else 0)
      && st'.totalSizeBytes == st.totalSizeBytes + (if Accepted(s, fs, p) then fs.size(p) else 0)
  {
  }

  /**
   * A skipped path adds exactly 1 to the counter of its group and leaves
   * every other counter alone; any other path changes no counter.
   */
  lemma StepSkips(s: Settings, fs: FileSystem, st: ScanState, p: Path)
    ensures var st' := Step(s, fs, st, p);
      && Dict.Sum(st'.skippedByDir) == Dict.Sum(st.skippedByDir) + (if Skipped(s, fs, p) then 1 else 0)
      && Dict.GetOr(st'.skippedByDir, SkipGroupKey(s, fs, p), 0)
         == Dict.GetOr(st.skippedByDir, SkipGroupKey(s, fs, p), 0) + (if Skipped(s, fs, p) then 1 else 0)
      && (forall k :: k != SkipGroupKey(s, fs, p) ==> Dict.Get(st'.skippedByDir, k) == Dict.Get(st.skippedByDir, k))
  {
    var key := SkipGroupKey(s, fs, p);
    if Skipped(s, fs, p) {
      assert Step(s, fs, st, p) == RecordSkipped(st, key);
      RecordSkippedCounts(st, key);
    } else {
      assert Step(s, fs, st, p).skippedByDir == st.skippedByDir;
    }
  }

  /** Only an accepted file at or above the duplicate threshold can be listed as a duplicate. */
  lemma StepDuplicates(s: Settings, fs: FileSystem, st: ScanState, p: Path)
    ensures var st' := Step(s, fs, st, p);
      st'.duplicateFiles == st.duplicateFiles
      || (Accepted(s, fs, p) && fs.size(p) >= s.duplicateThreshold && st'.duplicateFiles == st.duplicateFiles + [p])
  {
  }

  /** One step keeps the accumulator consistent. */
  lemma StepConsistent(s: Settings, fs: FileSystem, st: ScanState, p: Path)
    requires Consistent(fs, st)
    ensures Consistent(fs, Step(s, fs, st, p))
  {
    StepCounts(s, fs, st, p);
    StepDuplicates(s, fs, st, p);
    var st' := Step(s, fs, st, p);
    if Accepted(s, fs, p) {
      assert st'.scannedFiles[..|st'.scannedFiles| - 1] == st.scannedFiles;
    }
  }

  /** A whole scan keeps the accumulator consistent. */
  lemma {:induction false} RunConsistent(s: Settings, fs: FileSystem, st: ScanState, paths: seq<Path>)
    requires Consistent(fs, st)
    ensures Consistent(fs, Run(s, fs, st, paths))
    decreases |paths|
  {
    if paths != [] {
      StepConsistent(s, fs, st, paths[0]);
      RunConsistent(s, fs, Step(s, fs, st, paths[0]), paths[1..]);
    }
  }

  /** The files a scan lists are exactly the accepted paths, in order. */
  lemma {:induction false} RunScanned(s: Settings, fs: FileSystem, st: ScanState, paths: seq<Path>)
    ensures Run(s, fs, st, paths).scannedFiles == st.scannedFiles + AcceptedOf(s, fs, paths)
    decreases |paths|
  {
    if paths != [] {
      var p := paths[0];
      var st1 := Step(s, fs, st, p);
      var mine := if Accepted(s, fs, p) then [p] else [];
      assert st1.scannedFiles == st.scannedFiles + mine
        && Run(s, fs, st, paths) == Run(s, fs, st1, paths[1..])
        && AcceptedOf(s, fs, paths) == mine + AcceptedOf(s, fs, paths[1..])
      by {
        StepCounts(s, fs, st, p);
      }
      RunScanned(s, fs, st1, paths[1..]);
      ConcatStep(st.scannedFiles, mine, AcceptedOf(s, fs, paths[1..]),
        st1.scannedFiles, AcceptedOf(s, fs, paths), Run(s, fs, st, paths).scannedFiles);
    }
  }

  /** `z == (a + m) + r` and `y == m + r` give `z == a + y`. */
  lemma ConcatStep<T>(a: seq<T>, m: seq<T>, r: seq<T>, x: seq<T>, y: seq<T>, z: seq<T>)
    requires x == a + m && z == x + r && y == m + r
    ensures z == a + y
  {
  }

  /** The skip counters of a scan add up to the number of skipped paths. */
  lemma {:induction false} RunSkips(s: Settings, fs: FileSystem, st: ScanState, paths: seq<Path>)
    ensures Dict.Sum(Run(s, fs, st, paths).skippedByDir) == Dict.Sum(st.skippedByDir) + SkippedCount(s, fs, paths)
    decreases |paths|
  {
    if paths != [] {
      var p := paths[0];
      var st1 := Step(s, fs, st, p);
      assert Dict.Sum(st1.skippedByDir) == Dict.Sum(st.skippedByDir) + (if Skipped(s, fs, p) then 1 else 0) by {
        StepSkips(s, fs, st, p);
      }
      RunSkips(s, fs, st1, paths[1..]);
    }
  }

  /**
   * A file below the duplicate threshold, or one that is not accepted, is
   * never added to the duplicate list.
   */
  lemma {:induction false} RunDuplicates(s: Settings, fs: FileSystem, st: ScanState, paths: seq<Path>, q: Path)
    requires q in Run(s, fs, st, paths).duplicateFiles
    ensures q in st.duplicateFiles || (q in paths && Accepted(s, fs, q) && fs.size(q) >= s.duplicateThreshold)
    decreases |paths|
  {
    if paths != [] {
      StepDuplicates(s, fs, st, paths[0]);
      RunDuplicates(s, fs, Step(s, fs, st, paths[0]), paths[1..], q);
    }
  }

  /** The result of a scan: `total_files == len(scanned_files)`, and every duplicate was scanned. */
  lemma ScanTotals(s: Settings, fs: FileSystem, paths: seq<Path>)
    ensures var r := ResultOf(Run(s, fs, Initial, paths));
      && r.scannedFiles == AcceptedOf(s, fs, paths)
      && r.totalFiles == |r.scannedFiles|
      && r.totalSizeBytes == SizeSum(fs, r.scannedFiles)
      && (forall q :: q in r.duplicateFiles ==> q in r.scannedFiles)
      && Dict.Sum(Run(s, fs, Initial, paths).skippedByDir) == SkippedCount(s, fs, paths)
  {
    RunConsistent(s, fs, Initial, paths);
    RunScanned(s, fs, Initial, paths);
    RunSkips(s, fs, Initial, paths);
  }

  /**
   * An accepted file at or above the threshold that was not stored before:
   * the first with its key is indexed, a later one is listed as a duplicate.
   */
  lemma StepIndexes(s: Settings, fs: FileSystem, st: ScanState, p: Path)
    requires Accepted(s, fs, p) && fs.size(p) >= s.duplicateThreshold
    requires Dict.Get(st.fileContents, p).None?
    ensures var st' := Step(s, fs, st, p);
      && (forall q :: q != p ==> Dict.Get(st'.fileContents, q) == Dict.Get(st.fileContents, q))
      && (Dict.Get(st.hashIndex, FileKey(s, fs, p)).None? ==>
            st'.hashIndex == Dict.Set(st.hashIndex, FileKey(s, fs, p), p) && st'.duplicateFiles == st.duplicateFiles)
      && (Dict.Get(st.hashIndex, FileKey(s, fs, p)).Some? ==>
            st'.hashIndex == st.hashIndex && st'.duplicateFiles == st.duplicateFiles + [p])
  {
    forall q | q != p ensures Dict.Get(Step(s, fs, st, p).fileContents, q) == Dict.Get(st.fileContents, q) {
      if IsText(s, p) {
        Dict.SetOther(st.fileContents, p, fs.readText(p), q);
      }
    }
  }

  /**
   * Of two distinct accepted files with the same key at or above the
   * threshold, scanned one after the other with that key not yet indexed,
   * the first is indexed and only the second is listed as a duplicate.
   */
  lemma SecondCopyFlagged(s: Settings, fs: FileSystem, st: ScanState, p: Path, q: Path)
    requires p != q && Accepted(s, fs, p) && Accepted(s, fs, q)
    requires fs.size(p) >= s.duplicateThreshold && fs.size(q) >= s.duplicateThreshold
    requires FileKey(s, fs, p) == FileKey(s, fs, q)
    requires Dict.Get(st.fileContents, p).None? && Dict.Get(st.fileContents, q).None?
    requires Dict.Get(st.hashIndex, FileKey(s, fs, p)).None?
    ensures var st' := Step(s, fs, Step(s, fs, st, p), q);
      && st'.duplicateFiles == st.duplicateFiles + [q]
      && Dict.Get(st'.hashIndex, FileKey(s, fs, p)) == Some(p)
  {
    StepIndexes(s, fs, st, p);
    StepIndexes(s, fs, Step(s, fs, st, p), q);
  }

  // ---------------------------------------------------------------------
  // Skip group ordering

  /** `(-count, name)` of `a` is smaller than that of `b`. */
  predicate Before(a: (string, int), b: (string, int)) {
    a.1 > b.1 || (a.1 == b.1 && StrOrder.Less(a.0, b.0))
  }

  predicate SortedGroups(r: seq<(string, int)>) {
    forall i, j :: 0 <= i < j < |r| ==> !Before(r[j], r[i])
  }

  /** "Not before" is transitive: the sort key is a total order. */
  lemma NotBeforeTransitive(a: (string, int), b: (string, int), c: (string, int))
    requires !Before(b, a) && !Before(c, b)
    ensures !Before(c, a)
  {
    if a.1 == b.1 == c.1 {
      StrOrder.LessTotal(a.0, b.0);
      StrOrder.LessTotal(b.0, c.0);
      if StrOrder.Less(c.0, a.0) {
        if a.0 == b.0 {
        } else if b.0 == c.0 {
        } else {
          StrOrder.LessTransitive(c.0, a.0, b.0);
          StrOrder.LessAsymmetric(c.0, b.0);
        }
      }
    }
  }

  function InsertGroup(x: (string, int), r: seq<(string, int)>): (t: seq<(string, int)>)
    ensures multiset(t) == multiset(r) + multiset{x}
  {
    if r == [] then [x]
    else if Before(r[0], x) then
      var u := InsertGroup(x, r[1..]);
      assert r == [r[0]] + r[1..];
      [r[0]] + u
    else [x] + r
  }

  lemma {:induction false} InsertGroupSorted(x: (string, int), r: seq<(string, int)>)
    requires SortedGroups(r)
    ensures SortedGroups(InsertGroup(x, r))
  {
    if r != [] {
      if Before(r[0], x) {
        InsertGroupSorted(x, r[1..]);
        var t := InsertGroup(x, r);
        var u := InsertGroup(x, r[1..]);
        assert t == [r[0]] + u;
        forall j | 0 <= j < |u| ensures !Before(u[j], r[0]) {
          var y := u[j];
          assert y in multiset(u);
          assert y in multiset(r[1..]) + multiset{x};
          if y in r[1..] {
            var k :| 0 <= k < |r[1..]| && r[1..][k] == y;
            assert r[k + 1] == y;
          } else {
            assert y == x;
            StrOrder.LessAsymmetric(x.0, r[0].0);
          }
        }
      } else {
        forall j | 0 <= j < |r| ensures !Before(r[j], x) {
          if j > 0 { NotBeforeTransitive(x, r[0], r[j]); }
        }
      }
    }
  }

  /** Insertion sort of the (name, count) pairs. */
  function SortGroups(d: seq<(string, int)>): (r: seq<(string, int)>)
    ensures multiset(r) == multiset(d)
  {
    if d == [] then []
    else
      assert d == [d[0]] + d[1..];
      InsertGroup(d[0], SortGroups(d[1..]))
  }

  lemma {:induction false} SortGroupsSorted(d: seq<(string, int)>)
    ensures SortedGroups(SortGroups(d))
  {
    if d != [] {
      SortGroupsSorted(d[1..]);
      InsertGroupSorted(d[0], SortGroups(d[1..]));
    }
  }

  /**
   * `_sorted_skip_groups`: the counters as (directory, count) pairs, a
   * permutation of the dictionary's items ordered by descending count and
   * then ascending directory label.
   */
  function SortedSkipGroups(skippedByDir: Dict.Dict<string, int>): (r: seq<(string, int)>)
    ensures multiset(r) == multiset(skippedByDir)
    ensures SortedGroups(r)
  {
    SortGroupsSorted(skippedByDir);
    SortGroups(skippedByDir)
  }

  // ---------------------------------------------------------------------
  // .gitignore

  /** The pattern one `.gitignore` line contributes, if any. */
  function PatternOf(line: string): Option<string> {
    var t := Strip(line);
    if t == [] || StartsWith(t, "#") then None else Some(RStripChar(t, '/'))
  }

  /** The patterns of a `.gitignore` file's lines, in order. */
  function GitignorePatterns(lines: seq<string>): (r: seq<string>)
    ensures |r| <= |lines|
  {
    if lines == [] then []
    else
      (if PatternOf(lines[0]).Some? then [PatternOf(lines[0]).value] else []) + GitignorePatterns(lines[1..])
  }

  /** The patterns of the lines from `i` on: the pattern of line `i`, then those of the rest. */
  lemma GitignoreFrom(lines: seq<string>, i: nat, patterns: seq<string>)
    requires i < |lines|
    ensures PatternOf(lines[i]).None? ==>
      patterns + GitignorePatterns(lines[i..]) == patterns + GitignorePatterns(lines[i + 1..])
    ensures PatternOf(lines[i]).Some? ==>
      patterns + GitignorePatterns(lines[i..]) == (patterns + [PatternOf(lines[i]).value]) + GitignorePatterns(lines[i + 1..])
  {
    assert lines[i..][1..] == lines[i + 1..];
  }

  /** The body of the `.gitignore` loop for one line: strip, skip blanks and comments, drop trailing slashes. */
  method LinePattern(line: string) returns (pattern: Option<string>)
    ensures pattern == PatternOf(line)
  {
    var strippedLine := Strip(line);
    if strippedLine == [] || StartsWith(strippedLine, "#") {
      return None;
    }
    pattern := Some(RStripChar(strippedLine, '/'));
  }

  /** `_extract_gitignore_patterns`. */
  method ExtractGitignorePatterns(text: string) returns (patterns: seq<string>)
    ensures patterns == GitignorePatterns(SplitLines(text))
  {
    var lines := SplitLines(text);
    patterns := [];
    for i := 0 to |lines|
      invariant patterns + GitignorePatterns(lines[i..]) == GitignorePatterns(lines)
    {
      GitignoreFrom(lines, i, patterns);
      var pattern := LinePattern(lines[i]);
      if pattern.None? {
        continue;
      }
      patterns := patterns + [pattern.value];
    }
    assert lines[|lines|..] == [];
  }

  /**
   * A pattern that is not empty starts with neither whitespace nor '#' and
   * does not end with '/'.
   */
  lemma PatternShape(line: string)
    ensures PatternOf(line).Some? ==>
      var p := PatternOf(line).value;
      p == [] || (!IsSpace(p[0]) && p[0] != '#' && p[|p| - 1] != '/')
  {
    var t := Strip(line);
    if PatternOf(line).Some? {
      var p := RStripChar(t, '/');
      assert p != [] ==> p[0] == t[0];
      assert t[..1] != "#";
    }
  }

  /** Every pattern comes from a line, and every line that yields a pattern contributes it. */
  lemma {:induction false} GitignoreMembers(lines: seq<string>)
    ensures forall p :: p in GitignorePatterns(lines) <==> exists i :: 0 <= i < |lines| && PatternOf(lines[i]) == Some(p)
  {
    if lines != [] {
      GitignoreMembers(lines[1..]);
      forall p ensures p in GitignorePatterns(lines) <==> exists i :: 0 <= i < |lines| && PatternOf(lines[i]) == Some(p) {
        if p in GitignorePatterns(lines[1..]) {
          var i :| 0 <= i < |lines[1..]| && PatternOf(lines[1..][i]) == Some(p);
          assert PatternOf(lines[i + 1]) == Some(p);
        }
        if exists i :: 0 <= i < |lines| && PatternOf(lines[i]) == Some(p) {
          var i :| 0 <= i < |lines| && PatternOf(lines[i]) == Some(p);
          if i > 0 { assert PatternOf(lines[1..][i - 1]) == Some(p); }
        }
      }
    }
  }

  /**
   * The patterns of a `.gitignore`: stripped lines that are neither blank
   * nor comments, with trailing slashes removed, so none starts with
   * whitespace or '#' or ends with '/'.
   */
  lemma GitignorePatternShape(lines: seq<string>)
    ensures forall p :: p in GitignorePatterns(lines) ==> p == [] || (!IsSpace(p[0]) && p[0] != '#' && p[|p| - 1] != '/')
  {
    GitignoreMembers(lines);
    forall p | p in GitignorePatterns(lines) ensures p == [] || (!IsSpace(p[0]) && p[0] != '#' && p[|p| - 1] != '/') {
      var i :| 0 <= i < |lines| && PatternOf(lines[i]) == Some(p);
      PatternShape(lines[i]);
    }
  }

  // ---------------------------------------------------------------------
  // The scanner object

  /** The mutable `scan_data` dictionary of one scan. */
  class ScanData {
    var totalFiles: int
    var totalSizeBytes: int
    var scannedFiles: seq<Path>
    var skippedByDir: Dict.Dict<string, int>
    var hashIndex: Dict.Dict<string, Path>
    var duplicateFiles: seq<Path>
    var fileContents: Dict.Dict<Path, Option<string>>

    function State(): ScanState
      reads this
    {
      ScanState(totalFiles, totalSizeBytes, scannedFiles, skippedByDir, hashIndex, duplicateFiles, fileContents)
    }

    constructor()
      ensures State() == Initial
    {
      totalFiles := 0;
      totalSizeBytes := 0;
      scannedFiles := [];
      skippedByDir := [];
      hashIndex := [];
      duplicateFiles := [];
      fileContents := [];
    }
  }

  class DirectoryScanner {
    const settings: Settings

    /**
     * `__init__` once the root has been checked: the ignore patterns are
     * the given ones followed by those of the root's `.gitignore`
     * (`gitignore` is its text, `None` when there is no such file), unless
     * `.gitignore` handling is switched off.
     */
    constructor(root: Path, ignore: seq<string>, noGitignore: bool, gitignore: Option<string>,
                binaryExtensions: seq<string>, minBytes: int, maxBytes: int, duplicateThreshold: int)
      ensures settings == Settings(root,
        ignore + (if noGitignore || gitignore.None? then [] else GitignorePatterns(SplitLines(gitignore.value))),
        binaryExtensions, minBytes, maxBytes, duplicateThreshold)
    {
      var patterns: seq<string> := [];
      if !noGitignore && gitignore.Some? {
        patterns := ExtractGitignorePatterns(gitignore.value);
      }
      settings := Settings(root, ignore + patterns, binaryExtensions, minBytes, maxBytes, duplicateThreshold);
    }

    /** `_should_ignore`. */
    method ShouldIgnore(path: Path, fs: FileSystem) returns (b: bool)
      ensures b == Ignored(settings, fs, path)
    {
      if AnyMatch(fs, settings.ignore, path) {
        return true;
      }
      var parents := PyPath.Parents(path);
      for i := 0 to |parents|
        invariant FirstMatch(fs, settings.ignore, settings.root, parents[i..]) == FirstMatch(fs, settings.ignore, settings.root, parents)
      {
        assert parents[i..][1..] == parents[i + 1..];
        if AnyMatch(fs, settings.ignore, parents[i]) {
          return true;
        }
        if parents[i] == settings.root {
          return false;
        }
      }
      assert parents[|parents|..] == [];
      return false;
    }

    /** `_find_ignore_match`. */
    method FindIgnoreMatch(path: Path, fs: FileSystem) returns (m: Option<Path>)
      ensures m == IgnoreMatch(settings, fs, path)
    {
      var candidates := [path] + PyPath.Parents(path);
      for i := 0 to |candidates|
        invariant FirstMatch(fs, settings.ignore, settings.root, candidates[i..]) == IgnoreMatch(settings, fs, path)
      {
        assert candidates[i..][1..] == candidates[i + 1..];
        if AnyMatch(fs, settings.ignore, candidates[i]) {
          return Some(candidates[i]);
        }
        if candidates[i] == settings.root {
          return None;
        }
      }
      assert candidates[|candidates|..] == [];
      return None;
    }

    /** `_get_skip_group_key`. */
    method GetSkipGroupKey(path: Path, fs: FileSystem) returns (key: string)
      ensures key == SkipGroupKey(settings, fs, path)
    {
      var found := FindIgnoreMatch(path, fs);
      var m := if found.Some? then found.value else PyPath.Parent(path);
      if fs.isFile(m) {
        m := PyPath.Parent(m);
      }
      var relative := m;
      var r := PyPath.RelativeTo(m, settings.root);
      if r.Some? {
        relative := r.value;
      }
      if relative == PyPath.Path("", []) {
        return "./";
      }
      key := RStripChar(PyPath.AsPosix(relative), '/') + "/";
    }

    /** `_record_skipped_path`. */
    method RecordSkippedPath(path: Path, fs: FileSystem, data: ScanData)
      modifies data
      ensures data.State() == RecordSkipped(old(data.State()), SkipGroupKey(settings, fs, path))
    {
      var key := GetSkipGroupKey(path, fs);
      var before := data.State();
      data.skippedByDir := RecordSkipped(before, key).skippedByDir;
      assert data.State() == RecordSkipped(before, key);
    }

    /** `_increment_scan_totals`. */
    method IncrementScanTotals(size: int, data: ScanData)
      modifies data
      ensures data.State() == old(data.State()).(totalFiles := old(data.totalFiles) + 1,
                                                 totalSizeBytes := old(data.totalSizeBytes) + size)
    {
      data.totalFiles := data.totalFiles + 1;
      data.totalSizeBytes := data.totalSizeBytes + size;
    }

    /** `_store_file_content_if_text`: a failed read is stored as `None`. */
    method StoreFileContentIfText(path: Path, fs: FileSystem, data: ScanData)
      modifies data
      ensures data.State() == StoreContent(settings, fs, old(data.State()), path)
    {
      if Lower(PyPath.Suffix(path)) in settings.binaryExtensions {
        return;
      }
      data.fileContents := Dict.Set(data.fileContents, path, fs.readText(path));
    }

    /** `_maybe_record_duplicate`. */
    method MaybeRecordDuplicate(path: Path, size: int, fs: FileSystem, data: ScanData)
      modifies data
      ensures data.State() == RecordDuplicate(settings, fs, old(data.State()), path, size)
    {
      if size < settings.duplicateThreshold {
        return;
      }
      var key := DuplicateKey(fs, path, size, data.fileContents);
      var first := Dict.Get(data.hashIndex, key);
      if first.None? {
        data.hashIndex := Dict.Set(data.hashIndex, key, path);
      } else {
        data.duplicateFiles := data.duplicateFiles + [path];
      }
    }

    /** `_process_path`. */
    method ProcessPath(path: Path, fs: FileSystem, data: ScanData)
      modifies data
      ensures data.State() == Step(settings, fs, old(data.State()), path)
    {
      var ignored := ShouldIgnore(path, fs);
      if ignored {
        RecordSkippedPath(path, fs, data);
        return;
      }
      if !fs.isFile(path) {
        return;
      }
      var size := fs.size(path);
      if !(settings.minBytes <= size <= settings.maxBytes) {
        RecordSkippedPath(path, fs, data);
        return;
      }
      IncrementScanTotals(size, data);
      StoreFileContentIfText(path, fs, data);
      MaybeRecordDuplicate(path, size, fs, data);
      data.scannedFiles := data.scannedFiles + [path];
    }

    /**
     * `scan`: every path found under the root (`allFiles`, the output of
     * `rglob("*")`) in turn, from a fresh accumulator.
     */
    method Scan(allFiles: seq<Path>, fs: FileSystem) returns (r: Data.ScanResult)
      ensures r == ResultOf(Run(settings, fs, Initial, allFiles))
    {
      var data := new ScanData();
      for i := 0 to |allFiles|
        invariant Run(settings, fs, data.State(), allFiles[i..]) == Run(settings, fs, Initial, allFiles)
      {
        assert allFiles[i..][1..] == allFiles[i + 1..];
        ProcessPath(allFiles[i], fs, data);
      }
      assert allFiles[|allFiles|..] == [];
      r := Data.ScanResult(data.totalFiles, data.totalSizeBytes, data.scannedFiles, data.duplicateFiles,
        if data.fileContents == [] then None else Some(data.fileContents));
    }
  }

  /**
   * The constructor's checks on the root: a missing root or one that is
   * not a directory is a ValueError.
   */
  method NewScanner(root: Path, rootExists: bool, rootIsDir: bool, ignore: seq<string>, noGitignore: bool,
                    gitignore: Option<string>, binaryExtensions: seq<string>, minBytes: int, maxBytes: int,
                    duplicateThreshold: int)
    returns (r: Result<DirectoryScanner>)
    ensures r.Err? <==> !rootExists || !rootIsDir
    ensures !rootExists ==> r == Err(ValueError("Path '" + PyPath.ToStr(root) + "' does not exist"))
    ensures rootExists && !rootIsDir ==> r == Err(ValueError("Path '" + PyPath.ToStr(root) + "' is not a directory"))
    ensures r.Ok? ==> fresh(r.value) && r.value.settings.root == root
    ensures r.Ok? ==> r.value.settings.ignore == ignore + (if noGitignore || gitignore.None? then [] else GitignorePatterns(SplitLines(gitignore.value)))
  {
    if !rootExists {
      return Err(ValueError("Path '" + PyPath.ToStr(root) + "' does not exist"));
    }
    if !rootIsDir {
      return Err(ValueError("Path '" + PyPath.ToStr(root) + "' is not a directory"));
    }
    var s := new DirectoryScanner(root, ignore, noGitignore, gitignore, binaryExtensions, minBytes, maxBytes, duplicateThreshold);
    return Ok(s);
  }
}
