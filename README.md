# statsvy, modelled in Dafny

statsvy is a command-line tool that scans a project directory and reports lines of code, comment and blank lines per language and per category. It also reads the project's dependency manifests, collects git metadata, keeps a scan history and compares two scans. This project models the deterministic core of that tool as Dafny datatypes, functions, classes and methods, and proves what the code promises about each part:

- **Line counting.** `LanguageAnalyzer` counts blank lines and comment lines from the lexer's token stream. The lexer is an input.
- **Aggregation.** `Analyzer` drops duplicates, binary files and short files, and folds per-file counts into per-language and per-category totals. Every total is proved to be the sum of its map.
- **Language detection.** `LanguageDetector` looks up the exact file name, then the lower-cased suffix. It builds the lookup tables from a language table and a custom mapping; where two languages claim a key, the later one wins.
- **Scanner bookkeeping.** `Scanner` tracks ignore rules up to the root, inclusive size bounds, skip-group counters and their ordering, the first-seen duplicate index, and `.gitignore` parsing.
- **Comparison.** `Comparison` computes deltas as "second minus first", with `None` wherever either side lacks a value.
- **Dependency manifests.**
  - `RequirementsReader`, `PyProjectReader`, `CargoReader` and `PackageJsonReader`, with the shared table walk in `DepSections`.
  - Reader dispatch by file name, in `ReaderFactory`.
  - The project-name readers, in `ProjectNameReaders`.
  - The multi-manifest merge with conflict detection, in `Merger`.
- **Stored forms.** The serialisers `ProjectInfoSerializer`, `MetricsSerializer`, `ProjectMetaSerializer` and `GitInfoSerializer`, with their round trips. Also the public-record mapping `ApiMapper` and the JSON summary `JsonFormatter`.
- **Display helpers.** `Formatting` covers signed deltas, the percentage guard, path shortening and the unit choice of sizes.
- **Configuration.**
  - Value conversion, in `ConfigValues`.
  - The default registry, in `ConfigData`.
  - Environment overrides, in `ConfigEnvReader`.
  - The loader class that replaces settings one at a time, in `ConfigLoader`.
- **History.** `HistoryStorage`: forgiving loads and append-only saves.
- **Small state machines.** `TimeoutChecker` and `PerformanceTracker`.
- **Git output.** `GitStats` reads contributors, branches, the last commit date and recent commit counts from git's text output.
- **CLI flags.** `CliFlags` normalises the scan command's `--profile` and `--track-performance` flags.
- **Release hook.** `ReleaseHook` is the commit-msg hook that reserves `main` for release commits.

Python's own building blocks live in supporting modules:

- `PyStr` covers `strip`, `split`, `splitlines`, `lower` and `find`.
- `PyInt` covers `int()`, `str()` and `{:,}`.
- `PyPath` covers `PurePosixPath`.
- `Dict` covers insertion-ordered dictionaries.
- `StrOrder` covers string ordering and `sorted(set(...))`.
- `Dates` covers ISO 8601 dates.
- `Json` covers parsed TOML/JSON/YAML values.
- `Fields` covers the serialisers' `dict.get` conversions.
- `Wrappers` provides `Option` and `Result` and the exception kinds.

Where the code mutates an object or loops, the model does the same: the scanner's accumulator, the loader's configuration, the keyword-argument dictionary, the timeout checker and the performance tracker are classes, and each method is proved to compute what a function of the old state describes.

Python dictionaries are association lists. Each model of a loop over a dictionary follows its insertion order.

## Model

| member | source | states |
|---|---|---|
| LanguageAnalyzer.BlankLines | src/statsvy/language_parsing/language_analyzer.py:72-81 | the blank count never exceeds the number of `splitlines` lines |
| LanguageAnalyzer.FallbackCommentCount | src/statsvy/language_parsing/language_analyzer.py:100-105 | the plain-text fallback counts at most one comment per line |
| LanguageAnalyzer.StartLine | src/statsvy/language_parsing/language_analyzer.py:109-121 | the line counter starts at 1 and never drops below it |
| LanguageAnalyzer.MarkParts | src/statsvy/language_parsing/language_analyzer.py:111-117 | a comment token marks exactly the consecutive lines from the current one that its parts occupy, the empty fragment after a final newline excepted |
| LanguageAnalyzer.CountCommentLines | src/statsvy/language_parsing/language_analyzer.py:107-123 | the loop returns the number of distinct lines marked by comment tokens, each token starting on the line the newlines before it lead to |
| LanguageAnalyzer.SpanOfParts | src/statsvy/language_parsing/language_analyzer.py:110-121 | splitting a token at newlines gives one part more than its newlines, and the parts marked cover the lines the token touches |
| LanguageAnalyzer.Analyze | src/statsvy/language_parsing/language_analyzer.py:33-69 | `analyze` returns (comment lines, blank lines) in that order |
| LanguageAnalyzer.NewlinesAreBlank | src/statsvy/language_parsing/language_analyzer.py:72-81 | a text of n newlines has n blank lines ("\n\n\n" gives 3, "" gives 0) |
| LanguageAnalyzer.BlankAndFallbackDisjoint | src/statsvy/language_parsing/language_analyzer.py:72-105 | no line is both blank and a fallback comment, so the two counts add up to at most the line count |
| LanguageAnalyzer.FallbackCountsBounded | src/statsvy/language_parsing/language_analyzer.py:72-105 | with the fallback lexer, blank plus comment lines never exceed the lines of the file |
| LanguageAnalyzer.StartLineMonotone | src/statsvy/language_parsing/language_analyzer.py:119-121 | the line counter only moves forward along the token stream |
| LanguageAnalyzer.CommentLinesWithin | src/statsvy/language_parsing/language_analyzer.py:107-122 | every marked line lies between 1 and the line after the last newline of the stream |
| LanguageAnalyzer.CommentCountBounded | src/statsvy/language_parsing/language_analyzer.py:107-123 | because lines are collected in a set, the comment count is at most the number of lines the stream spans |
| LanguageAnalyzer.OneCommentToken | src/statsvy/language_parsing/language_analyzer.py:107-123 | a single comment token marks as many lines as `splitlines` finds in its text (a trailing newline adds none) |
| Analyzer.AddStatsConsistent | src/statsvy/core/analyzer.py:279-310 | adding one file's statistics keeps each total equal to the sum of its per-language (and per-category) map |
| Analyzer.BumpSum | src/statsvy/core/analyzer.py:294-310 | `d[k] = d.get(k, 0) + x` raises the sum of the map by exactly `x` |
| Analyzer.BumpOther | src/statsvy/core/analyzer.py:294-310 | `d[k] = d.get(k, 0) + x` leaves every other key as it was |
| Analyzer.AddStatsTargets | src/statsvy/core/analyzer.py:294-310 | a file's lines, comments and blanks go to its own language and category entries only |
| Analyzer.MetricsData.constructor | src/statsvy/core/analyzer.py:142-156 | the counters start at zero and the maps empty |
| Analyzer.MetricsData.Update | src/statsvy/core/analyzer.py:279-310 | `_update_metrics` changes the counters exactly as adding the file's statistics does |
| Analyzer.Contribution | src/statsvy/core/analyzer.py:241-277 | a file contributes nothing exactly when it is not a regular file, is binary by its lower-cased suffix, or has fewer lines than the threshold; otherwise its line count is `len(splitlines())`, its blanks fit in it, and its language and category come from the detector |
| Analyzer.WithoutDuplicates | src/statsvy/core/analyzer.py:115-120 | the files analysed are exactly the scanned files not listed as duplicates |
| Analyzer.TallyConsistent | src/statsvy/core/analyzer.py:192-214 | however many files are processed, every total stays the sum of its map |
| Analyzer.CreateMetrics | src/statsvy/core/analyzer.py:351-383 | file count and size are copied from the scan, KB and MB are the floor divisions by 1024 and 1048576, and the counters are copied unchanged |
| Analyzer.AnalyzeSums | src/statsvy/core/analyzer.py:83-140 | in every result `total_lines` is the sum of `lines_by_lang` and of `lines_by_category`, and the comment and blank totals the sums of their maps |
| Analyzer.SkippedFileAddsNothing | src/statsvy/core/analyzer.py:241-277 | a non-file, binary file or file under the line threshold changes no counter |
| Analyzer.Analyzer.constructor | src/statsvy/core/analyzer.py:42-81 | the analyzer keeps its name, path, language tables, binary extensions and line threshold |
| Analyzer.Analyzer.ProcessFile | src/statsvy/core/analyzer.py:241-277 | `_process_file` adds the file's contribution to the counters, or leaves them unchanged when it has none |
| Analyzer.Analyzer.Analyze | src/statsvy/core/analyzer.py:83-140 | `analyze` starts from zeroed counters, drops duplicates and folds every remaining file in scan order, so repeated calls give equal results |
| LanguageDetector.LoadYaml | src/statsvy/language_parsing/language_detector.py:119-140 | a missing file gives an empty table, a document that is not a mapping is read as empty, and only a read or parse failure is an error |
| LanguageDetector.Iterate | src/statsvy/language_parsing/language_detector.py:198-245 | iterating a value succeeds exactly for a list, a string or a mapping |
| LanguageDetector.MergeLanguageMappings | src/statsvy/language_parsing/language_detector.py:142-172 | the merging loop computes the merged table: an empty custom mapping leaves the base, non-mapping custom entries are skipped, others update the base entry's keys |
| LanguageDetector.MergeAllGet | src/statsvy/language_parsing/language_detector.py:159-172 | a language the custom mapping does not override keeps its entry; one it overrides gets the base keys updated with the custom keys |
| LanguageDetector.AddNamesGet | src/statsvy/language_parsing/language_detector.py:211-245 | after processing, a key the language lists maps to that language and every other key keeps its previous mapping |
| LanguageDetector.ProcessNames | src/statsvy/language_parsing/language_detector.py:211-245 | the extension and file-name loops map each string item to the language, lower-casing extensions, and ignore other items |
| LanguageDetector.ProcessCategory | src/statsvy/language_parsing/language_detector.py:247-261 | a string `type` (default "unknown") becomes the language's category; a non-string type is not recorded |
| LanguageDetector.BuildLanguageMappings | src/statsvy/language_parsing/language_detector.py:174-209 | the building loop computes the three tables from the language table, skipping non-mapping entries |
| LanguageDetector.LoadLanguageMap | src/statsvy/language_parsing/language_detector.py:93-117 | loading reads the table, merges the custom mapping over it and builds the tables |
| LanguageDetector.Detect | src/statsvy/language_parsing/language_detector.py:57-75 | `detect` uses the exact file name first, then the lower-cased suffix, and otherwise "unknown" |
| LanguageDetector.LaterLanguageWins | src/statsvy/language_parsing/language_detector.py:198-226 | when two languages list the same extension or file name, the later one in table order wins; an unlisted key keeps its mapping |
| LanguageDetector.CategoryOfEntry | src/statsvy/language_parsing/language_detector.py:247-261 | a language whose entry has a string `type` (default "unknown") gets that category; otherwise its category is unchanged |
| LanguageDetector.EmptyConfigUnknown | src/statsvy/language_parsing/language_detector.py:77-133 | with no table and no custom mapping every file and every category is "unknown" |
| LanguageDetector.DetectIgnoresSuffixCase | src/statsvy/language_parsing/language_detector.py:71-75 | files whose suffixes differ only in case are detected as the same language |
| Scanner.FirstMatch | src/statsvy/core/scanner.py:359-379 | a match found is one of the candidates and matches an ignore pattern |
| Scanner.FirstMatchFound | src/statsvy/core/scanner.py:359-379 | the search finds a match exactly when some candidate matches before the root has been passed |
| Scanner.IgnoreMatch | src/statsvy/core/scanner.py:359-379 | the match returned does match an ignore pattern |
| Scanner.IgnoredIffMatch | src/statsvy/core/scanner.py:463-489 | for a path other than the root, being ignored and having an ignore match agree |
| Scanner.IgnoredUpToRoot | src/statsvy/core/scanner.py:463-489 | a path is ignored exactly when it or one of its ancestors up to and including the root matches a pattern |
| Scanner.SkipGroupKey | src/statsvy/core/scanner.py:333-357 | the skip group label ends with exactly one '/' |
| Scanner.RecordSkippedCounts | src/statsvy/core/scanner.py:322-331 | recording a skipped path adds 1 to its group's counter, and so to the sum, and changes no other counter |
| Scanner.Accept | src/statsvy/core/scanner.py:208-242 | an accepted file is appended once to the scanned files, adds 1 to the file count and its size to the byte total, and is listed as a duplicate only when at or above the threshold |
| Scanner.StepCounts | src/statsvy/core/scanner.py:208-252 | an accepted file is counted, sized and listed once; any other path changes none of these |
| Scanner.StepSkips | src/statsvy/core/scanner.py:208-242 | a skipped path adds exactly 1 to one skip-group counter; any other path changes no counter |
| Scanner.StepDuplicates | src/statsvy/core/scanner.py:433-461 | only an accepted file at or above the duplicate threshold can be listed as a duplicate |
| Scanner.StepConsistent | src/statsvy/core/scanner.py:208-252 | one step keeps the file count equal to the number of scanned files and the byte total equal to their sizes |
| Scanner.RunConsistent | src/statsvy/core/scanner.py:77-190 | a whole scan keeps the accumulator consistent |
| Scanner.RunScanned | src/statsvy/core/scanner.py:77-190 | the files a scan lists are exactly the accepted paths, in order |
| Scanner.RunSkips | src/statsvy/core/scanner.py:77-190 | the skip counters of a scan add up to the number of skipped paths |
| Scanner.RunDuplicates | src/statsvy/core/scanner.py:433-461 | a file below the duplicate threshold, or one that was not accepted, is never listed as a duplicate |
| Scanner.ScanTotals | src/statsvy/core/scanner.py:77-131 | in a scan result `total_files == len(scanned_files)`, the byte total is the sum of their sizes, every duplicate was scanned, and the skip counters sum to the skipped paths |
| Scanner.StepIndexes | src/statsvy/core/scanner.py:433-461 | the first file with a (size, hash) key is indexed; a later one with the same key is listed as a duplicate and the index is unchanged |
| Scanner.SecondCopyFlagged | src/statsvy/core/scanner.py:433-461 | of two files with the same key scanned in turn, the first is indexed and only the second is flagged |
| Scanner.NotBeforeTransitive | src/statsvy/core/scanner.py:419-431 | the skip-group sort key (descending count, then ascending label) is a total order |
| Scanner.InsertGroup | src/statsvy/core/scanner.py:419-431 | inserting a pair keeps every pair and adds this one |
| Scanner.InsertGroupSorted | src/statsvy/core/scanner.py:419-431 | inserting into a sorted list of groups keeps it sorted |
| Scanner.SortGroups | src/statsvy/core/scanner.py:419-431 | sorting the groups is a permutation |
| Scanner.SortGroupsSorted | src/statsvy/core/scanner.py:419-431 | the sorted groups are in order of descending count, then ascending label |
| Scanner.SortedSkipGroups | src/statsvy/core/scanner.py:419-431 | `_sorted_skip_groups` is a permutation of the counters' items, ordered by descending count and then label |
| Scanner.GitignorePatterns | src/statsvy/core/scanner.py:512-531 | a `.gitignore` yields at most one pattern per line |
| Scanner.GitignoreFrom | src/statsvy/core/scanner.py:521-530 | the patterns from a line on are that line's pattern, if any, followed by those of the rest |
| Scanner.LinePattern | src/statsvy/core/scanner.py:521-530 | one line gives its stripped text without trailing slashes, or nothing when blank or a comment |
| Scanner.ExtractGitignorePatterns | src/statsvy/core/scanner.py:512-531 | the loop collects the patterns of the file's lines in order |
| Scanner.PatternShape | src/statsvy/core/scanner.py:521-530 | a non-empty pattern starts with neither whitespace nor '#' and does not end with '/' |
| Scanner.GitignoreMembers | src/statsvy/core/scanner.py:512-531 | every pattern comes from a line, and every line that yields a pattern contributes it |
| Scanner.GitignorePatternShape | src/statsvy/core/scanner.py:512-531 | no pattern of a `.gitignore` starts with whitespace or '#' or ends with '/' |
| Scanner.ScanData.constructor | src/statsvy/core/scanner.py:192-206 | `_initialize_scan_data` starts from zero counters and empty collections |
| Scanner.DirectoryScanner.constructor | src/statsvy/core/scanner.py:34-75 | the ignore patterns are the given ones followed by the root's `.gitignore` patterns unless gitignore handling is off or there is no such file |
| Scanner.DirectoryScanner.ShouldIgnore | src/statsvy/core/scanner.py:463-489 | the loop over the path and its parents computes whether the path is ignored |
| Scanner.DirectoryScanner.FindIgnoreMatch | src/statsvy/core/scanner.py:359-379 | the loop returns the nearest matching ancestor up to the root |
| Scanner.DirectoryScanner.GetSkipGroupKey | src/statsvy/core/scanner.py:333-357 | the key is the directory of the nearest match (or of the path) relative to the root, with one trailing slash, "./" for the root |
| Scanner.DirectoryScanner.RecordSkippedPath | src/statsvy/core/scanner.py:322-331 | the accumulator changes exactly by one skip of the path's group |
| Scanner.DirectoryScanner.IncrementScanTotals | src/statsvy/core/scanner.py:244-252 | the file count grows by 1 and the byte total by the size, nothing else changes |
| Scanner.DirectoryScanner.StoreFileContentIfText | src/statsvy/core/scanner.py:254-286 | the text of a text file is stored, a failed read as `None` |
| Scanner.DirectoryScanner.MaybeRecordDuplicate | src/statsvy/core/scanner.py:433-461 | the accumulator changes as the duplicate check on (size, hash) says |
| Scanner.DirectoryScanner.ProcessPath | src/statsvy/core/scanner.py:208-242 | `_process_path` changes the accumulator exactly as one step of the scan |
| Scanner.DirectoryScanner.Scan | src/statsvy/core/scanner.py:77-131 | `scan` folds every path found under the root from a fresh accumulator |
| Scanner.NewScanner | src/statsvy/core/scanner.py:34-75 | a missing root or one that is not a directory is a ValueError with the source's message; otherwise the scanner keeps the root and the ignore patterns |
| Comparison.Delta | src/statsvy/core/comparison.py:96-152 | a delta exists exactly when both counts are present, and then adding it to the first gives the second |
| Comparison.OverallRecovers | src/statsvy/core/comparison.py:75-94 | adding each overall delta to the first snapshot's total gives the second's |
| Comparison.OverallSelfZero | src/statsvy/core/comparison.py:75-94 | a snapshot compared with itself has no overall change |
| Comparison.OverallSwap | src/statsvy/core/comparison.py:75-94 | swapping the snapshots negates every overall delta |
| Comparison.LanguageTableGet | src/statsvy/core/comparison.py:96-152 | the language table maps exactly the listed languages, in order, to their deltas |
| Comparison.CategoryTableGet | src/statsvy/core/comparison.py:154-180 | the category table maps exactly the listed categories, in order, to their deltas |
| Comparison.ByLanguageSpec | src/statsvy/core/comparison.py:96-152 | one entry per language of either snapshot, sorted; each field is `None` when missing on either side, otherwise the second count minus the first |
| Comparison.ByLanguage | src/statsvy/core/comparison.py:96-152 | the language table's keys are sorted, repeat none, and are exactly the languages of either snapshot |
| Comparison.ByCategorySpec | src/statsvy/core/comparison.py:154-180 | one entry per category of either snapshot, sorted, with the same delta rule |
| Comparison.ByCategory | src/statsvy/core/comparison.py:154-180 | the category table's keys are sorted, repeat none, and are exactly the categories of either snapshot |
| Comparison.SelfCompare | src/statsvy/core/comparison.py:96-180 | comparing a snapshot with itself gives delta zero for every count it has |
| Comparison.DeltaSwap | src/statsvy/core/comparison.py:96-152 | swapping the operands negates a delta and keeps a missing one missing |
| Comparison.SortedUnionSwap | src/statsvy/core/comparison.py:96-180 | the sorted union of the two key lists does not depend on their order |
| Comparison.SwapLanguage | src/statsvy/core/comparison.py:96-152 | swapping the snapshots keeps every language and negates every present delta |
| Comparison.SwapCategory | src/statsvy/core/comparison.py:154-180 | swapping the snapshots keeps every category and negates every present delta |
| Comparison.DeltaByLanguage | src/statsvy/core/comparison.py:96-152 | the loop over the sorted union builds the language table |
| Comparison.DeltaByCategory | src/statsvy/core/comparison.py:154-180 | the loop over the sorted union builds the category table |
| Comparison.Compare | src/statsvy/core/comparison.py:23-73 | `compare` keeps both snapshots unchanged, computes the three delta groups and records the clock reading |
| RequirementsReader.CleanLineSpec | src/statsvy/config_readers/requirements_txt_reader.py:36-47 | blank and comment lines give nothing; otherwise the text kept is non-empty, holds no '#', has no whitespace at its ends and begins the stripped line |
| RequirementsReader.CleanLineIdempotent | src/statsvy/config_readers/requirements_txt_reader.py:36-47 | cleaning an already cleaned line changes nothing |
| RequirementsReader.RemoveExtras | src/statsvy/config_readers/requirements_txt_reader.py:77-125 | removing extras leaves no ']' behind when there was a '[' and changes nothing otherwise |
| RequirementsReader.RemoveExtrasSpec | src/statsvy/config_readers/requirements_txt_reader.py:77-125 | `name[extras]rest` loses exactly its bracketed extras |
| RequirementsReader.FirstOperator | src/statsvy/config_readers/requirements_txt_reader.py:77-125 | the operator chosen is the first of the fixed list that occurs in the line |
| RequirementsReader.WithOperator | src/statsvy/config_readers/requirements_txt_reader.py:77-125 | the name is the lower-cased stripped text before the operator, the version the operator followed by the stripped text after it |
| RequirementsReader.ParseRequirementLine | src/statsvy/config_readers/requirements_txt_reader.py:77-125 | a non-empty line always gives a production dependency from `requirements.txt`; an empty one gives nothing |
| RequirementsReader.ParseNoOperator | src/statsvy/config_readers/requirements_txt_reader.py:77-125 | without an operator the lower-cased line is the name and the version is "*" |
| RequirementsReader.ParseFirstOperator | src/statsvy/config_readers/requirements_txt_reader.py:77-125 | with an operator, the first one of the fixed order that occurs splits the line |
| RequirementsReader.FirstOperatorIs | src/statsvy/config_readers/requirements_txt_reader.py:77-125 | in `name + op + version` without operator characters around it, `op` is the operator chosen and is found right after the name |
| RequirementsReader.ParseRoundTrip | src/statsvy/config_readers/requirements_txt_reader.py:77-125 | a requirement written as name, operator and version reads back as that name and `operator + version` |
| RequirementsReader.LineDepsSpec | src/statsvy/config_readers/requirements_txt_reader.py:35-50 | a line contributes at most one dependency, and contributes one exactly when it is neither blank nor a comment |
| RequirementsReader.FileDeps | src/statsvy/config_readers/requirements_txt_reader.py:35-50 | a file gives at most one dependency per line |
| RequirementsReader.FileDepsStep | src/statsvy/config_readers/requirements_txt_reader.py:35-50 | the dependencies of one more line are those so far followed by that line's |
| RequirementsReader.FileDepsMembers | src/statsvy/config_readers/requirements_txt_reader.py:35-50 | every dependency comes from one of the lines and every requirement line contributes its dependency |
| RequirementsReader.FileDepsProduction | src/statsvy/config_readers/requirements_txt_reader.py:54-68 | every dependency read is a production dependency from `requirements.txt` |
| RequirementsReader.AllProduction | src/statsvy/config_readers/requirements_txt_reader.py:54-68 | the production count equals the total |
| RequirementsReader.RequirementsInfoSpec | src/statsvy/config_readers/requirements_txt_reader.py:19-75 | no project name, the file itself as the only source file, and dependency details exactly when some line holds a requirement, counting them all as production |
| RequirementsReader.LineDependency | src/statsvy/config_readers/requirements_txt_reader.py:36-52 | the loop body adds the dependency of one line, if any |
| RequirementsReader.ReadProjectInfo | src/statsvy/config_readers/requirements_txt_reader.py:19-75 | `read_project_info` folds the lines in order into the file's record |
| PyProjectReader.NameLength | src/statsvy/config_readers/pyproject_reader.py:170-211 | the name run is the longest prefix of name characters |
| PyProjectReader.AfterExtras | src/statsvy/config_readers/pyproject_reader.py:170-211 | what follows the extras is no longer than the rest |
| PyProjectReader.MatchRequirement | src/statsvy/config_readers/pyproject_reader.py:170-211 | a match gives a dependency of the list's category from `pyproject.toml` with a non-empty lower-case name and a non-empty version |
| PyProjectReader.ParseDependencyString | src/statsvy/config_readers/pyproject_reader.py:170-211 | a parsed string gives a dependency of its category from `pyproject.toml` with a non-empty name and version |
| PyProjectReader.ParseNoName | src/statsvy/config_readers/pyproject_reader.py:170-211 | a string that does not start with a name character once the marker is dropped and it is stripped gives nothing |
| PyProjectReader.MarkerIgnored | src/statsvy/config_readers/pyproject_reader.py:170-211 | everything from the first ';' on is ignored |
| PyProjectReader.ParseRoundTrip | src/statsvy/config_readers/pyproject_reader.py:170-211 | a lower-case name followed by a version reads back as that name and version, "*" standing for no version |
| PyProjectReader.MatchRoundTrip | src/statsvy/config_readers/pyproject_reader.py:170-211 | the match of a lower-case name followed by a version gives that name and version |
| PyProjectReader.NameLengthOf | src/statsvy/config_readers/pyproject_reader.py:170-211 | the name run of `name + rest` is exactly `name` when `rest` does not continue it |
| PyProjectReader.ParseExtrasIgnored | src/statsvy/config_readers/pyproject_reader.py:170-211 | an extras group between name and version is dropped |
| PyProjectReader.MatchExtrasIgnored | src/statsvy/config_readers/pyproject_reader.py:170-211 | the match skips an extras group between name and version |
| PyProjectReader.AfterExtrasOf | src/statsvy/config_readers/pyproject_reader.py:170-211 | the extras group is skipped up to its closing bracket |
| PyProjectReader.ItemDeps | src/statsvy/config_readers/pyproject_reader.py:98-144 | a list of requirement strings gives at most one dependency per item |
| PyProjectReader.ItemDepsMembers | src/statsvy/config_readers/pyproject_reader.py:98-144 | a dependency comes from a list exactly when one of its truthy items parses to it |
| PyProjectReader.ItemDepsCategory | src/statsvy/config_readers/pyproject_reader.py:98-144 | every dependency read from a list carries the list's category |
| PyProjectReader.GroupDepsMembers | src/statsvy/config_readers/pyproject_reader.py:120-144 | an optional dependency comes from one of the groups that is a list |
| PyProjectReader.OptionalDepsCategory | src/statsvy/config_readers/pyproject_reader.py:120-144 | every optional dependency is in the `optional` category |
| PyProjectReader.AllDepsCategories | src/statsvy/config_readers/pyproject_reader.py:80-144 | standard dependencies are `prod`, optional ones `optional`, and none is `dev` |
| PyProjectReader.CountsOfSection | src/statsvy/config_readers/pyproject_reader.py:146-168 | the dev count is zero and the production and optional counts add up to the total |
| PyProjectReader.ProjectSection | src/statsvy/config_readers/pyproject_reader.py:38-50 | the project table used is a table, found only in a document that is a table |
| PyProjectReader.ProjectName | src/statsvy/config_readers/pyproject_reader.py:68-78 | the name is `str(name)` exactly when the name is truthy |
| PyProjectReader.PyProjectInfoSpec | src/statsvy/config_readers/pyproject_reader.py:21-66 | without a usable project table nothing is reported; with one, the file is the only source file and the dependency details are present exactly when some dependency was read |
| PyProjectReader.LegacyTableFallback | src/statsvy/config_readers/pyproject_reader.py:38-50 | the literal `"[project]"` table is read only when `project` is not a table |
| PyProjectReader.ExtractItems | src/statsvy/config_readers/pyproject_reader.py:98-144 | the loop parses each truthy item in order |
| PyProjectReader.ExtractStandardDeps | src/statsvy/config_readers/pyproject_reader.py:98-118 | `_extract_standard_deps` reads the `dependencies` list as production dependencies |
| PyProjectReader.ExtractOptionalDeps | src/statsvy/config_readers/pyproject_reader.py:120-144 | `_extract_optional_deps` reads every list of `optional-dependencies` as optional dependencies |
| PyProjectReader.ReadProjectInfo | src/statsvy/config_readers/pyproject_reader.py:21-66 | `read_project_info` builds the record from the parsed document |
| CargoReader.ExtractVersion | src/statsvy/config_readers/cargo_toml_reader.py:117-137 | a string is the version itself, a table gives its truthy `version` entry, anything else accepts any version ("*") |
| CargoReader.PackageName | src/statsvy/config_readers/cargo_toml_reader.py:21-78 | the name is read only from a `[package]` table, and exactly when its name is truthy |
| CargoReader.CargoInfoSpec | src/statsvy/config_readers/cargo_toml_reader.py:21-78 | a root that is not a table gives nothing; otherwise the file is the only source file and dependency details are present exactly when either table has an entry, production first, with matching counts |
| CargoReader.CargoSourcesOnce | src/statsvy/config_readers/cargo_toml_reader.py:80-115 | `Cargo.toml` is listed once as a source when either table is present, and never otherwise |
| CargoReader.CargoDepsFromKeys | src/statsvy/config_readers/cargo_toml_reader.py:80-115 | every dependency is named by its table key, lower-cased, with the version `_extract_version` gives and the table's category |
| CargoReader.ReadProjectInfo | src/statsvy/config_readers/cargo_toml_reader.py:21-78 | `read_project_info` builds the record from the parsed document |
| PackageJsonReader.PackageName | src/statsvy/config_readers/package_json_reader.py:20-76 | the name is `str(name)` of the top-level name exactly when that is truthy |
| PackageJsonReader.PackageSourcesOnce | src/statsvy/config_readers/package_json_reader.py:78-128 | `package.json` is listed once as a source when any of the three objects is present, and never otherwise |
| PackageJsonReader.PackageInfoSpec | src/statsvy/config_readers/package_json_reader.py:20-76 | a root that is not an object gives nothing; otherwise dependency details are present exactly when one of the three objects has an entry, each count the size of its object and the total their sum |
| PackageJsonReader.PackageVersions | src/statsvy/config_readers/package_json_reader.py:78-93 | each dependency is the lower-cased key with `str()` of its value as version, so a string version is kept as written |
| PackageJsonReader.ReadProjectInfo | src/statsvy/config_readers/package_json_reader.py:20-76 | `read_project_info` builds the record from the parsed document |
| DepSections.SectionOf | src/statsvy/config_readers/cargo_toml_reader.py:80-115 | a section is read exactly when the key holds a table |
| DepSections.SectionDeps | src/statsvy/config_readers/package_json_reader.py:78-128 | a section gives one dependency per entry, in the table's order |
| DepSections.SectionCounts | src/statsvy/config_readers/package_json_reader.py:78-128 | a section's dependencies all carry its category, adding exactly its size to that count and nothing to another |
| DepSections.DepsOfSectionCounts | src/statsvy/config_readers/package_json_reader.py:78-128 | the same holds for a section that may be absent |
| DepSections.AddSource | src/statsvy/config_readers/cargo_toml_reader.py:98-115 | appending a source guarded by `not in` adds it once and keeps the others |
| DepSections.CollectedInfo | src/statsvy/config_readers/cargo_toml_reader.py:54-71 | there are dependency details exactly when some dependency was found, holding all of them and their count |
| DepSections.Collector.constructor | src/statsvy/config_readers/cargo_toml_reader.py:49-52 | the reader starts with empty dependency and source lists |
| DepSections.Collector.AppendTable | src/statsvy/config_readers/package_json_reader.py:78-93 | the loop over a table appends one dependency per entry and no source |
| DepSections.Collector.AddFirstSection | src/statsvy/config_readers/cargo_toml_reader.py:80-96 | the first section appends its source unconditionally when present, then its entries |
| DepSections.Collector.AddLaterSection | src/statsvy/config_readers/cargo_toml_reader.py:98-115 | a later section appends its source only when it is not already listed |
| ReaderFactory.ReaderFor | src/statsvy/config_readers/config_readers_factory.py:16-33 | a reader is chosen exactly for the four manifest names, by the file's last component |
| ReaderFactory.ReaderForManifest | src/statsvy/config_readers/config_readers_factory.py:16-33 | each reader is chosen for a file carrying its name, wherever that file lives |
| ReaderFactory.ReaderForName | src/statsvy/config_readers/config_readers_factory.py:16-33 | only the last path component matters |
| ReaderFactory.LowerCaseCargoUnsupported | src/statsvy/config_readers/config_readers_factory.py:16-33 | matching is case-sensitive: `cargo.toml` has no reader |
| ProjectNameReaders.TableName | src/statsvy/core/project_config_readers.py:27-60 | a name is read only from a key that holds a table |
| ProjectNameReaders.PyProjectName | src/statsvy/core/project_config_readers.py:27-60 | a document that is not a table gives no name |
| ProjectNameReaders.PackageJsonName | src/statsvy/core/project_config_readers.py:65-85 | a document that is not an object gives no name |
| ProjectNameReaders.CargoName | src/statsvy/core/project_config_readers.py:90-115 | a document that is not a table gives no name |
| ProjectNameReaders.NameReaderFor | src/statsvy/core/project_config_readers.py:117-132 | a name reader exists exactly for `pyproject.toml`, `package.json` and `Cargo.toml` |
| ProjectNameReaders.NameReaderImpliesReader | src/statsvy/core/project_config_readers.py:117-132 | every file with a name reader also has a dependency reader, while `requirements.txt` has only the latter |
| ProjectNameReaders.PackageJsonNameAgrees | src/statsvy/core/project_config_readers.py:65-85 | the package.json name reader agrees with the dependency reader's name |
| ProjectNameReaders.CargoNameAgrees | src/statsvy/core/project_config_readers.py:90-115 | the Cargo name reader agrees with the dependency reader's name |
| ProjectNameReaders.PyProjectNameAgrees | src/statsvy/core/project_config_readers.py:27-60 | the pyproject name reader agrees with the dependency reader when `project` names the project, and otherwise falls back to `"[project]"` |
| ProjectNameReaders.PyProjectNamesDiverge | src/statsvy/core/project_config_readers.py:27-60 | on a file whose `project` table has no name while `"[project]"` has one, the name reader returns it and the dependency reader reports none |
| Merger.FirstNamed | src/statsvy/utils/project_info_merger.py:54-67 | the index found is that of the first input with a truthy name, or the end when there is none |
| Merger.SelectName | src/statsvy/utils/project_info_merger.py:54-67 | the name chosen is the first truthy name in input order, and there is none exactly when no input has one |
| Merger.AllDepsAppend | src/statsvy/utils/project_info_merger.py:69-90 | collecting dependencies from two lists in turn collects from their concatenation |
| Merger.AllSourcesAppend | src/statsvy/utils/project_info_merger.py:69-90 | collecting file names from two lists in turn collects from their concatenation |
| Merger.AllDepsMembers | src/statsvy/utils/project_info_merger.py:69-90 | a dependency is collected exactly when some input lists it |
| Merger.AllSourcesMembers | src/statsvy/utils/project_info_merger.py:69-90 | a file name is collected exactly when some input names it |
| Merger.CollectAllDeps | src/statsvy/utils/project_info_merger.py:69-90 | the loop collects every dependency in input order and the set of every source file |
| Merger.BuildDepInfo | src/statsvy/utils/project_info_merger.py:92-123 | there is no dependency info exactly when there are no dependencies; otherwise it keeps them all, gives the number of `prod`, `dev` and `optional` dependencies and the total, sorts the sources and keeps the conflicts |
| Merger.ByName | src/statsvy/utils/project_info_merger.py:145-162 | the dependencies of one name are exactly those with that name |
| Merger.GroupsGet | src/statsvy/utils/project_info_merger.py:145-162 | each name present maps to exactly its dependencies in input order |
| Merger.GroupsUnique | src/statsvy/utils/project_info_merger.py:145-162 | no name is a key of the groups twice |
| Merger.GroupStep | src/statsvy/utils/project_info_merger.py:145-162 | creating an empty group for a new name and appending adds the dependency to its group |
| Merger.GroupDepsByName | src/statsvy/utils/project_info_merger.py:145-162 | the grouping loop computes the groups |
| Merger.VersionsByFileKeys | src/statsvy/utils/project_info_merger.py:164-189 | a file is a key exactly when some dependency comes from it, and no file is a key twice |
| Merger.FileLines | src/statsvy/utils/project_info_merger.py:191-206 | one version line per file |
| Merger.VersionConflictIff | src/statsvy/utils/project_info_merger.py:164-189 | a version conflict is reported exactly when two of the dependencies come from different files |
| Merger.ConflictOf | src/statsvy/utils/project_info_merger.py:125-143 | a group contributes exactly its conflict line, if it has one |
| Merger.ConflictLinesMembers | src/statsvy/utils/project_info_merger.py:125-143 | a conflict line is reported exactly when some group contributes it |
| Merger.ConflictsMembers | src/statsvy/utils/project_info_merger.py:125-143 | a conflict line is reported exactly for the names whose dependencies conflict |
| Merger.ConflictsSound | src/statsvy/utils/project_info_merger.py:125-143 | every conflict line belongs to a name whose dependencies conflict |
| Merger.ConflictsComplete | src/statsvy/utils/project_info_merger.py:125-143 | the conflict of every name with conflicting dependencies is reported |
| Merger.NameConflictIff | src/statsvy/utils/project_info_merger.py:164-189 | a package conflicts exactly when two of its declarations come from different files, whatever their versions |
| Merger.FormatVersionStrings | src/statsvy/utils/project_info_merger.py:191-206 | the loop formats one line per file, in order |
| Merger.VersionStep | src/statsvy/utils/project_info_merger.py:164-189 | creating an empty set for a new file and adding records the version under its file |
| Merger.FindVersionConflict | src/statsvy/utils/project_info_merger.py:164-189 | the loop finds the conflict the name's dependencies have |
| Merger.DetectConflicts | src/statsvy/utils/project_info_merger.py:125-143 | the loop over the groups reports exactly their conflicts |
| Merger.Merge | src/statsvy/utils/project_info_merger.py:19-52 | `merge` of no inputs is empty, of one input is that input, and otherwise the merged result |
| Merger.Merged | src/statsvy/utils/project_info_merger.py:19-52 | no inputs merge to an empty result, one input is returned as it is, and several give the first truthy name and sorted source files |
| Merger.MergedSpec | src/statsvy/utils/project_info_merger.py:19-52 | a merge of two or more results has the first truthy name, the sorted union of the files read, every dependency (or none when no input has any), counted per category, and the conflicts among them |
| Merger.AllDepsEmpty | src/statsvy/utils/project_info_merger.py:92-123 | no dependencies are collected exactly when no input has any |
| ProjectInfoSerializer.DeserializeDependency | src/statsvy/serializers/project_info_serializer.py:37-52 | each missing field takes its default: empty name, any version, production, unknown source file |
| ProjectInfoSerializer.DependencyRoundTrip | src/statsvy/serializers/project_info_serializer.py:20-52 | storing a dependency and reading it back gives the same dependency |
| ProjectInfoSerializer.SerializeDependency | src/statsvy/serializers/project_info_serializer.py:20-34 | a stored dependency is a dict of `name`, `version`, `category` and `source_file`, in that order, each once |
| ProjectInfoSerializer.SerializeDependencies | src/statsvy/serializers/project_info_serializer.py:54-75 | the stored list holds each dependency's stored form, in order |
| ProjectInfoSerializer.DeserializeDependencies | src/statsvy/serializers/project_info_serializer.py:77-100 | the list read back holds each stored dependency read, in order |
| ProjectInfoSerializer.DependenciesRoundTrip | src/statsvy/serializers/project_info_serializer.py:54-100 | storing a list of dependencies and reading it back gives the same list |
| ProjectInfoSerializer.DeserializeDependencyInfo | src/statsvy/serializers/project_info_serializer.py:77-100 | missing counts read as zero and missing lists as empty |
| ProjectInfoSerializer.DependencyInfoField | src/statsvy/serializers/project_info_serializer.py:54-75 | each key of the stored dependency details holds its field's value |
| ProjectInfoSerializer.DependencyInfoRoundTrip | src/statsvy/serializers/project_info_serializer.py:54-100 | storing dependency details and reading them back gives the same details |
| ProjectInfoSerializer.SerializeDependencyInfo | src/statsvy/serializers/project_info_serializer.py:54-74 | stored dependency details are a dict of the seven fields, in declaration order, each once |
| ProjectInfoSerializer.DependencyInfoTruthy | src/statsvy/serializers/project_info_serializer.py:102-120 | stored dependency details are never an empty dict, so they are always stored and read back |
| ProjectInfoSerializer.DeserializeProjectFileInfo | src/statsvy/serializers/project_info_serializer.py:122-144 | dependency details are read exactly from a truthy `dependencies` value; a missing or `None` name is no name; missing source files are none |
| ProjectInfoSerializer.ProjectFileInfoRoundTrip | src/statsvy/serializers/project_info_serializer.py:102-144 | storing project file information and reading it back gives the same information |
| ProjectInfoSerializer.SerializeProjectFileInfo | src/statsvy/serializers/project_info_serializer.py:102-119 | stored project file information is a dict of `name`, `source_files` and `dependencies`, each once |
| ProjectInfoSerializer.EmptyDependenciesDropped | src/statsvy/serializers/project_info_serializer.py:122-144 | an empty `dependencies` dict reads back as no dependency details, not as empty ones |
| MetricsSerializer.BaseValues | src/statsvy/serializers/metrics_serializer.py:15-48 | the stored result has one value per base key |
| MetricsSerializer.BaseField | src/statsvy/serializers/metrics_serializer.py:15-48 | each base key of the stored result holds its field's value, the timestamp in ISO form |
| MetricsSerializer.ToDict | src/statsvy/serializers/metrics_serializer.py:15-48 | a stored result is a dict of the fourteen base keys in order, then `dependencies` exactly when there are dependency details, no key twice |
| MetricsSerializer.DependenciesField | src/statsvy/serializers/metrics_serializer.py:15-48 | the stored result has a `dependencies` entry exactly when the result has dependency details |
| MetricsSerializer.StoredDependencies | src/statsvy/serializers/metrics_serializer.py:50-86 | dependency details are read exactly from a truthy `dependencies` value |
| MetricsSerializer.FromDict | src/statsvy/serializers/metrics_serializer.py:50-86 | every field falls back to its default, except that a missing or malformed timestamp raises ValueError |
| MetricsSerializer.ToDictShaped | src/statsvy/serializers/metrics_serializer.py:15-48 | the stored result has every field in its annotated type |
| MetricsSerializer.MetricsRoundTrip | src/statsvy/serializers/metrics_serializer.py:15-86 | storing a result and reading it back gives the same result, for a normal-form path and a valid timestamp |
| GitInfoSerializer.GitInfoValues | src/statsvy/serializers/git_info_serializer.py:16-35 | the stored git facts have one value per key |
| GitInfoSerializer.GitInfoField | src/statsvy/serializers/git_info_serializer.py:16-35 | each key of the stored git facts holds its field's value |
| GitInfoSerializer.ToDict | src/statsvy/serializers/git_info_serializer.py:16-35 | stored git facts are a dict of the nine fields in declaration order, each once |
| GitInfoSerializer.ToDictTruthy | src/statsvy/serializers/git_info_serializer.py:16-35 | stored git facts are never an empty dict, so they are always truthy |
| ProjectMetaSerializer.BaseValues | src/statsvy/serializers/project_meta_serializer.py:16-36 | the stored project has one value per base key |
| ProjectMetaSerializer.BaseField | src/statsvy/serializers/project_meta_serializer.py:16-36 | each base key of the stored project holds its field's value |
| ProjectMetaSerializer.ToDict | src/statsvy/serializers/project_meta_serializer.py:16-36 | a stored project is a dict of the four base keys in order, then `git_info` exactly when there are git facts, no key twice |
| ProjectMetaSerializer.GitInfoEntry | src/statsvy/serializers/project_meta_serializer.py:16-36 | the stored project has a `git_info` entry exactly when there are git facts |
| ProjectMetaSerializer.ReadGitInfo | src/statsvy/serializers/project_meta_serializer.py:38-73 | stored git facts read back with `is_git_repo` false and the other fields `None` when missing |
| ProjectMetaSerializer.EmptyGitInfo | src/statsvy/serializers/project_meta_serializer.py:38-73 | an empty dict of git facts reads as a directory that is not a repository |
| ProjectMetaSerializer.GitInfoToDictShaped | src/statsvy/serializers/git_info_serializer.py:16-35 | stored git facts have every field in its annotated type |
| ProjectMetaSerializer.GitInfoRoundTrip | src/statsvy/serializers/project_meta_serializer.py:38-73 | storing git facts and reading them back gives the same facts |
| ProjectMetaSerializer.StoredGitInfo | src/statsvy/serializers/project_meta_serializer.py:38-73 | git facts are read exactly from a truthy `git_info` value |
| ProjectMetaSerializer.FromDict | src/statsvy/serializers/project_meta_serializer.py:38-73 | a missing name, path or date added raises KeyError in that order, a date that is not ISO 8601 raises ValueError, and otherwise the project is read |
| ProjectMetaSerializer.ToDictShaped | src/statsvy/serializers/project_meta_serializer.py:16-36 | the stored project has every field in its annotated type |
| ProjectMetaSerializer.ProjectMetaRoundTrip | src/statsvy/serializers/project_meta_serializer.py:16-73 | storing a project and reading it back gives the same project, for a normal-form path |
| ApiMapper.ToTuples | src/statsvy/api/api_mapper.py:18-76 | each dependency becomes its (name, version, category, source file) tuple, in order |
| ApiMapper.FromTuples | src/statsvy/api/api_mapper.py:142-179 | each tuple becomes the dependency it describes, in order |
| ApiMapper.TuplesRoundTrip | src/statsvy/api/api_mapper.py:18-179 | turning dependencies into tuples and back gives the same dependencies |
| ApiMapper.ToApiScanResult | src/statsvy/api/api_mapper.py:18-76 | without dependency details the four counts are `None` and the lists empty; with them every count is present and every dependency listed |
| ApiMapper.ToDependencyInfo | src/statsvy/api/api_mapper.py:142-179 | no details unless some count is given or the tuple list is non-empty; missing counts read as 0 and a missing or zero total is replaced by the number of dependencies |
| ApiMapper.ToInternalMetrics | src/statsvy/api/api_mapper.py:95-123 | mapping back fails exactly when the timestamp is not ISO 8601, and rebuilds the path and the dependency details |
| ApiMapper.ScanResultRoundTrip | src/statsvy/api/api_mapper.py:18-123 | metrics to public result and back keeps every count, map, name, normal-form path and timestamp, and the dependency details when their total survives |
| ApiMapper.ZeroTotalReplaced | src/statsvy/api/api_mapper.py:142-179 | a total of 0 over a listed dependency comes back as the number of dependencies |
| ApiMapper.ToApiComparisonResult | src/statsvy/api/api_mapper.py:78-93 | the deltas are copied unchanged |
| ApiMapper.ToInternalComparison | src/statsvy/api/api_mapper.py:125-140 | mapping back succeeds exactly when all three timestamps are ISO 8601, and keeps the deltas |
| ApiMapper.ComparisonRoundTrip | src/statsvy/api/api_mapper.py:78-140 | a comparison survives the trip through the public record when both projects' dependency details do |
| JsonFormatter.Truncate | src/statsvy/formatters/json_formatter.py:85-103 | `int()` of a number truncates toward zero |
| JsonFormatter.ExtractBytesPrecedence | src/statsvy/formatters/json_formatter.py:85-103 | a numeric byte count decides alone, else a numeric kilobyte count (a multiple of 1024), else a numeric megabyte count times 1048576, truncated; with nothing numeric the size is 0 |
| JsonFormatter.ExtractBytesOfMetrics | src/statsvy/formatters/json_formatter.py:85-103 | for an analysis result the byte count is the one the result holds |
| JsonFormatter.ExtractBytes | src/statsvy/formatters/json_formatter.py:85-103 | an integer byte count is returned as it is, and a non-zero size always comes from some numeric attribute |
| JsonFormatter.KbFallbackBound | src/statsvy/formatters/json_formatter.py:85-103 | falling back on a whole kilobyte count loses less than 1 KB |
| JsonFormatter.EntryValues | src/statsvy/formatters/json_formatter.py:58-68 | a language entry has one value per key |
| JsonFormatter.EntryField | src/statsvy/formatters/json_formatter.py:58-68 | each key of a language entry holds its value |
| JsonFormatter.EntryCode | src/statsvy/formatters/json_formatter.py:58-68 | a language entry's code lines are its total less its comment and blank lines |
| JsonFormatter.LanguagesStep | src/statsvy/formatters/json_formatter.py:58-68 | one more turn of the loop sets the next language's entry |
| JsonFormatter.LanguagesGet | src/statsvy/formatters/json_formatter.py:58-68 | each language seen so far has its entry and no other key has one |
| JsonFormatter.LanguagesAppend | src/statsvy/formatters/json_formatter.py:58-68 | with distinct languages each turn adds a new entry at the end |
| JsonFormatter.LanguagesListed | src/statsvy/formatters/json_formatter.py:58-68 | the listing holds one entry per language, in order |
| JsonFormatter.LanguagesAt | src/statsvy/formatters/json_formatter.py:58-68 | with distinct languages the loop lists every language once, in order, with its entry |
| JsonFormatter.DependencyValues | src/statsvy/formatters/json_formatter.py:70-82 | the dependency summary has one value per key |
| JsonFormatter.DependencyField | src/statsvy/formatters/json_formatter.py:70-82 | each key of the summary holds its count or list, and the dependencies themselves are not part of it |
| JsonFormatter.BaseValues | src/statsvy/formatters/json_formatter.py:28-50 | the output has one value per headline key |
| JsonFormatter.ExtendGet | src/statsvy/formatters/json_formatter.py:28-83 | adding a key sets that key and keeps every other |
| JsonFormatter.BuildLanguages | src/statsvy/formatters/json_formatter.py:58-68 | the loop builds the per-language table from the line, comment and blank counts |
| JsonFormatter.BuildDict | src/statsvy/formatters/json_formatter.py:28-83 | `_build_dict` writes the six headline fields, then `git_info`, `lines_by_category`, `lines_by_language` and `dependencies` when there is something to show |
| JsonFormatter.BuildDictFails | src/statsvy/formatters/json_formatter.py:28-83 | the output fails (ValueError from `format_size`) exactly when the byte count is negative |
| JsonFormatter.OptionalFields | src/statsvy/formatters/json_formatter.py:28-83 | each optional key is present exactly when it has something to show, and then holds it |
| JsonFormatter.BaseFieldOfOutput | src/statsvy/formatters/json_formatter.py:28-50 | each headline field holds its value whatever optional keys follow |
| JsonFormatter.LanguageCodeLines | src/statsvy/formatters/json_formatter.py:58-68 | every language with a line count has an entry built from its lines and its comment and blank counts, missing counts read as 0 |
| JsonFormatter.LanguageOrder | src/statsvy/formatters/json_formatter.py:58-68 | `lines_by_language` lists the languages of the line counts in their order, each with its entry |
| Formatting.SignedThousands | src/statsvy/utils/formatting.py:11-41 | a non-zero difference is shown with '+' exactly when a gain and '-' exactly when a loss, and reads back as the difference once the commas are dropped |
| Formatting.DeltaStr | src/statsvy/utils/formatting.py:11-41 | `-` without a previous value; otherwise the difference in the positive colour with '+', in red with its minus sign, or the grey `±0` |
| Formatting.PercentChange | src/statsvy/utils/formatting.py:43-75 | there is no percentage exactly when the previous value is missing or zero; otherwise it is the change relative to the previous value, in percent |
| Formatting.PercentChangeSign | src/statsvy/utils/formatting.py:43-75 | against a positive previous value the percentage has the sign of the difference |
| Formatting.SegmentsOfPath | src/statsvy/utils/formatting.py:77-102 | the non-empty segments of a path's text are its parts |
| Formatting.TruncateShort | src/statsvy/utils/formatting.py:77-102 | a path with at most `max_parts` parts is shown unchanged |
| Formatting.TruncatePathDisplay | src/statsvy/utils/formatting.py:77-101 | a path with no more parts than the limit is shown as its POSIX text |
| Formatting.TruncateLong | src/statsvy/utils/formatting.py:77-102 | a longer path keeps its first two parts and its last one around `...`, with a leading '/' exactly when it is absolute |
| Formatting.UnitIndexFrom | src/statsvy/utils/formatting.py:149-195 | the unit settled on is the largest up to TB that is at most the byte count |
| Formatting.UnitIndex | src/statsvy/utils/formatting.py:149-195 | the unit of `n` bytes is B below 1 KB, then KB, MB, GB, and TB from 1 TB on |
| Formatting.SizeDisplayOf | src/statsvy/utils/formatting.py:149-195 | a scaled size is never negative |
| Formatting.Fixed2 | src/statsvy/utils/formatting.py:149-195 | `{x:.2f}` writes two decimals |
| Formatting.TrimZeros | src/statsvy/utils/formatting.py:149-195 | trimming trailing zeros and the point keeps a prefix of the text |
| Formatting.FormatSizeOf | src/statsvy/utils/formatting.py:149-195 | `format_size` fails exactly for a negative size and shows `-` for none |
| Formatting.FormatSize | src/statsvy/utils/formatting.py:149-195 | the dividing loop computes the size text |
| Formatting.SizeDisplayBounds | src/statsvy/utils/formatting.py:149-195 | below 1 KB the size is whole bytes; from 1 KB on the scaled size lies in [1, 1024) except in TB |
| Formatting.FormatSizeExamples | src/statsvy/utils/formatting.py:149-195 | 0 bytes are `0 B`, no size is `-`, and a negative size is a ValueError |
| Formatting.FormatSizeKb | src/statsvy/utils/formatting.py:149-195 | 1536 bytes are `1.5 KB` |
| Formatting.FormatSizeMb | src/statsvy/utils/formatting.py:149-195 | 1572864 bytes are `1.5 MB` |
| ConfigValues.FloatOfInt | src/statsvy/config/config_value_converter.py:80-84 | `float(i)` has the integer's value |
| ConfigValues.NonEmptyStripped | src/statsvy/config/config_value_converter.py:113-114 | the stripped non-empty pieces are no more than the pieces |
| ConfigValues.CoerceTuple | src/statsvy/config/config_value_converter.py:97-116 | a tuple is kept, a list or a comma-delimited string becomes a tuple, and anything else is a TypeError |
| ConfigValues.NormalizeKeepsKind | src/statsvy/config/config_value_converter.py:67-95 | a normalised value has the kind of its setting, and a setting of an unchecked kind takes the value unchanged |
| ConfigValues.NormalizeValue | src/statsvy/config/config_value_converter.py:67-95 | only float, tuple and mapping settings reject a value, with TypeError, or with ValueError for a float setting given a size text that does not parse |
| ConfigValues.NormalizeMapping | src/statsvy/config/config_value_converter.py:90-94 | a mapping setting rejects, with TypeError, exactly the values that are not mappings |
| ConfigValues.NormalizeSameKind | src/statsvy/config/config_value_converter.py:67-95 | a value already of a checked setting's kind passes unchanged |
| ConfigValues.ConvertKeepsKind | src/statsvy/config/config_value_converter.py:33-64 | every converted text has the kind of its setting, and only int, float and mapping settings can fail, with ValueError |
| ConfigValues.ConvertValue | src/statsvy/config/config_value_converter.py:33-64 | a bool setting never fails and is true exactly for `true`, `1`, `yes` or `on` in any case; a failure is a ValueError of an int, float or mapping setting |
| ConfigValues.ConvertBoolRoundTrip | src/statsvy/config/config_value_converter.py:49-50 | a bool setting reads back the text of any bool, and reads "1" as true because the bool test comes before the int test |
| ConfigValues.ConvertIntRoundTrip | src/statsvy/config/config_value_converter.py:51-52 | an int setting reads back the decimal text of any integer and fails exactly on the text `int()` refuses |
| ConfigValues.CommaItemsClean | src/statsvy/config/config_value_converter.py:113-114 | every item of a comma-delimited string is stripped, non-empty and comma-free |
| ConfigValues.CommaItemsJoin | src/statsvy/config/config_value_converter.py:113-114 | clean items read back from their comma-joined text |
| ConfigValues.ConvertTuple | src/statsvy/config/config_value_converter.py:55-56 | a tuple setting reads the text as its comma-delimited items and never fails |
| ConfigValues.ConvertTupleRoundTrip | src/statsvy/config/config_value_converter.py:55-56 | a tuple setting reads back clean items from their comma-joined text |
| ConfigValues.ConvertOther | src/statsvy/config/config_value_converter.py:62-64 | a string setting takes the text as it is |
| ConfigData.DefaultBinaryExtensionsShape | src/statsvy/data/config.py:198-221 | the default binary extensions are a tuple in the `scan` section, without repeats |
| Data.CountCategory | src/statsvy/data/dependency_info.py:12-36 | a category count never exceeds the number of dependencies |
| Data.CategoryCounts | src/statsvy/data/dependency_info.py:12-36 | the three category counts never exceed the total, and add up to it when every dependency is prod, dev or optional |
| Data.CountCategoryAppend | src/statsvy/data/dependency_info.py:12-36 | counting over two lists in turn adds their counts |
| ConfigEnvReader.EnvTarget | src/statsvy/config/config_env_reader.py:29-46 | a variable yields a target only when its name starts with `STATSVY_` and, with every `STATSVY_` removed, lower-cased and split at the first `_`, names an existing section and setting |
| ConfigEnvReader.ReadEnvOverrides | src/statsvy/config/config_env_reader.py:26-57 | the loop over the environment returns exactly the overrides (or the first conversion error) described by the function `EnvOverrides` |
| ConfigEnvReader.EnvOverrides | src/statsvy/config/config_env_reader.py:14-57 | an empty environment overrides nothing, and the only failure is a conversion's ValueError |
| ConfigEnvReader.ReadVariable | src/statsvy/config/config_env_reader.py:28-55 | one iteration of the loop is one `EnvStep`: skip, convert and store, or fail |
| ConfigEnvReader.EnvOverridesStep | src/statsvy/config/config_env_reader.py:28-55 | reading one more variable extends the overrides read so far by that variable's step |
| ConfigEnvReader.PutAfterSetdefault | src/statsvy/config/config_env_reader.py:53-55 | creating an empty section when missing and then assigning into it is the single update `Put` |
| ConfigEnvReader.EnvFailureSticks | src/statsvy/config/config_env_reader.py:50 | once a conversion raises, the rest of the environment is not read and the error is the result |
| ConfigEnvReader.LastNaming | src/statsvy/config/config_env_reader.py:28-55 | the index found names the setting and no later variable does; none found means no variable names it |
| ConfigEnvReader.PutGet | src/statsvy/config/config_env_reader.py:53-55 | after `overrides[section][key] = v` that setting reads `v` and every other setting reads as before |
| ConfigEnvReader.EnvOverridesLastWins | src/statsvy/config/config_env_reader.py:26-57 | a setting is overridden exactly when some variable names it, and by the converted value of the last such variable |
| ConfigEnvReader.EnvOverridesFail | src/statsvy/config/config_env_reader.py:49-50 | reading fails exactly when some variable naming a setting holds text that does not convert to that setting's type |
| ConfigEnvReader.EnvStepFails | src/statsvy/config/config_env_reader.py:30-55 | one variable fails exactly when it names a setting and its text does not convert |
| ConfigEnvReader.SomeConversionFailsStep | src/statsvy/config/config_env_reader.py:30-55 | some variable of the environment fails to convert exactly when one before the last does or the last does |
| ConfigEnvReader.EnvOverridesUnique | src/statsvy/config/config_env_reader.py:53-55 | the overrides are a dictionary: each section once, each setting once within its section |
| ConfigEnvReader.PutUnique | src/statsvy/config/config_env_reader.py:53-55 | storing one override keeps sections and settings unique |
| ConfigEnvReader.NoPrefixNoOverrides | src/statsvy/config/config_env_reader.py:29-30 | an environment with no `STATSVY_` variable reads successfully and overrides nothing |
| ConfigEnvReader.RemovePrefixTwice | src/statsvy/config/config_env_reader.py:32 | `replace` removes every occurrence of the prefix, so `STATSVY_STATSVY_X` is read as `X` |
| ConfigLoader.Dedup | src/statsvy/config/config_loader.py:209-218 | removing repeats keeps exactly the elements of the input |
| ConfigLoader.DedupDistinct | src/statsvy/config/config_loader.py:211-216 | the `seen` set guarantees the result repeats no extension |
| ConfigLoader.DedupOfDistinct | src/statsvy/config/config_loader.py:211-216 | a list without repeats comes back unchanged, order included |
| ConfigLoader.DedupPrefix | src/statsvy/config/config_loader.py:210-216 | what is deduplicated first is a prefix of the result: appending never disturbs earlier elements |
| ConfigLoader.DedupStep | src/statsvy/config/config_loader.py:213-216 | one more extension is appended exactly when it has not been seen |
| ConfigLoader.MergeKeepsCurrent | src/statsvy/config/config_loader.py:189-218 | merging extensions keeps the current ones first and in order, adds only the new ones, repeats none, and holds exactly the union |
| ConfigLoader.MergedExtensions | src/statsvy/config/config_loader.py:189-218 | the merge is a tuple exactly when the current value is, and then holds exactly the extensions of both |
| ConfigLoader.MergeBinaryExtensions | src/statsvy/config/config_loader.py:189-218 | the loop with its `seen` set returns the merge `MergedExtensions`: the current value when the new one is not a tuple, else the ordered union |
| ConfigLoader.SetSettingGet | src/statsvy/config/config_loader.py:182-183 | replacing one setting of one section changes that setting and no other |
| ConfigLoader.UpdatedSettingFrame | src/statsvy/config/config_loader.py:159-176 | an update touches only the named setting, and nothing at all when the section or setting does not exist or the value is rejected |
| ConfigLoader.UpdatedSetting | src/statsvy/config/config_loader.py:144-186 | an update never adds or removes a setting, and changes the configuration only when the setting exists and the value normalises |
| ConfigLoader.UpdatedSettingValue | src/statsvy/config/config_loader.py:163-183 | a setting other than `scan.binary_extensions` that accepts the value holds the normalised value afterwards |
| ConfigLoader.UpdatedSettingKind | src/statsvy/config/config_loader.py:144-183 | an update never adds or removes a setting and never changes the kind of value a setting holds |
| ConfigLoader.DefaultExtensionsKept | src/statsvy/config/config_loader.py:53 | the default configuration holds the default binary extensions, without repeats |
| ConfigLoader.UpdatedSettingExtensions | src/statsvy/config/config_loader.py:178-180 | because extensions are merged rather than replaced, no update can drop a default binary extension or introduce a repeat |
| ConfigLoader.ParseConfigKey | src/statsvy/config/config_loader.py:100-113 | a key splits exactly when it contains `_`, into a section without `_` and the rest, which joined by `_` give back the key |
| ConfigLoader.ParseConfigKeyExample | src/statsvy/config/config_loader.py:72-73 | `core_verbose_mode_enabled` names the setting `verbose_mode_enabled` of section `core` |
| ConfigLoader.KeySplitUnique | src/statsvy/config/config_loader.py:110 | a key names at most one section and setting |
| ConfigLoader.CliUntouched | src/statsvy/config/config_loader.py:79-85 | a setting no keyword argument names keeps its value |
| ConfigLoader.CliValue | src/statsvy/config/config_loader.py:79-98 | a setting named by a keyword argument that is not `None` ends up holding that argument's normalised value, whatever the other arguments |
| ConfigLoader.CliStepOther | src/statsvy/config/config_loader.py:79-85 | an argument whose key is not `section_setting` leaves that setting as it was |
| ConfigLoader.CliStepThis | src/statsvy/config/config_loader.py:79-98 | an argument `section_setting` that is not `None` gives the setting its normalised value |
| ConfigLoader.CliKinds | src/statsvy/config/config_loader.py:69-85 | command-line updates keep every setting's existence and kind, and never lose a default binary extension |
| ConfigLoader.SectionKinds | src/statsvy/config/config_loader.py:141-142 | updating a section from a table keeps every setting's existence and kind and the binary-extension invariant |
| ConfigLoader.SectionUntouched | src/statsvy/config/config_loader.py:141-142 | updating a section touches only that section, and only the settings the table names |
| ConfigLoader.FileKinds | src/statsvy/config/config_loader.py:123-142 | loading the file keeps every setting's existence and kind and the binary-extension invariant |
| ConfigLoader.FileSkipsSection | src/statsvy/config/config_loader.py:135-139 | a file section that is not a configuration section, or is not a table, changes nothing |
| ConfigLoader.OverridesKinds | src/statsvy/config/config_loader.py:119-121 | applying environment overrides keeps every setting's existence and kind and the binary-extension invariant |
| ConfigLoader.OverridesUntouched | src/statsvy/config/config_loader.py:119-121 | a setting the overrides do not name keeps its value |
| ConfigLoader.EnvLoadedUntouched | src/statsvy/config/config_loader.py:115-121 | a setting no environment variable names keeps its value |
| ConfigLoader.EnvLoadedKinds | src/statsvy/config/config_loader.py:115-121 | loading the environment keeps every setting's existence and kind and the binary-extension invariant |
| ConfigLoader.EnvLoadedNoPrefix | src/statsvy/config/config_loader.py:115-121 | an environment without `STATSVY_` variables changes nothing |
| ConfigLoader.ConfigPath | src/statsvy/config/config_loader.py:40-51 | the given path wins; otherwise `pyproject.toml`, unless only `statsvy.toml` exists |
| ConfigLoader.Loader.constructor | src/statsvy/config/config_loader.py:33-53 | a new loader has the chosen path and the default configuration |
| ConfigLoader.Loader.UpdateSectionSetting | src/statsvy/config/config_loader.py:144-186 | the configuration becomes `UpdatedSetting` of the old one; the path is unchanged and the binary-extension invariant kept |
| ConfigLoader.Loader.UpdateFromCli | src/statsvy/config/config_loader.py:69-85 | the configuration becomes the command-line update of the old one, argument by argument |
| ConfigLoader.Loader.UpdateSection | src/statsvy/config/config_loader.py:141-142 | the configuration becomes the old one with the table's settings applied in order |
| ConfigLoader.Loader.UpdateConfigFromDict | src/statsvy/config/config_loader.py:123-142 | the configuration becomes the old one updated section by section from the parsed file |
| ConfigLoader.Loader.LoadFromEnv | src/statsvy/config/config_loader.py:115-121 | a failed conversion is reported and leaves the configuration as it was; otherwise every override is applied |
| ConfigLoader.OverridesAppliedStep | src/statsvy/config/config_loader.py:119-121 | applying one more section of overrides is one more section update |
| ConfigLoader.Loader.Load | src/statsvy/config/config_loader.py:55-67 | the file's settings are applied first and the environment's after them, so the environment wins |
| HistoryStorage.ProcessLoadedHistory | src/statsvy/storage/history_storage.py:105-132 | a loaded object is the legacy single entry, a loaded list is the history, anything else is an empty history |
| HistoryStorage.LoadHistory | src/statsvy/storage/history_storage.py:40-69 | a missing, empty or undecodable file is an empty history; a file holding one object is a history of that entry |
| HistoryStorage.SaveEntry | src/statsvy/storage/history_storage.py:20-37 | the text written is the history as read with the new entry appended |
| HistoryStorage.GetLatestEntry | src/statsvy/storage/history_storage.py:72-85 | there is no latest entry exactly when the history is empty; otherwise it is the last one |
| HistoryStorage.SaveThenLoad | src/statsvy/storage/history_storage.py:20-85 | when `json.loads` reads back what `json.dumps` writes, saving then loading gives the old entries unchanged plus the new one, which becomes the latest |
| TimeoutChecker.CheckOutcome | src/statsvy/utils/timeout_checker.py:50-71 | `check` raises RuntimeError exactly before `start`, TimeoutError exactly when a non-zero limit is strictly exceeded, and never with limit 0 |
| TimeoutChecker.ElapsedOutcome | src/statsvy/utils/timeout_checker.py:73-84 | `elapsed` fails exactly before `start`; otherwise start time plus elapsed is now |
| TimeoutChecker.CheckAgreesWithElapsed | src/statsvy/utils/timeout_checker.py:50-84 | once started, `check` raises exactly when the limit is not 0 and `elapsed` exceeds it |
| TimeoutChecker.CheckMonotone | src/statsvy/utils/timeout_checker.py:66-71 | a check that passes at some time passes at every earlier time |
| TimeoutChecker.NewChecker | src/statsvy/utils/timeout_checker.py:19-35 | a negative limit is refused with ValueError; otherwise the checker holds the limit and is not started |
| TimeoutChecker.Checker.constructor | src/statsvy/utils/timeout_checker.py:33-35 | a new checker holds the limit and no start time |
| TimeoutChecker.Checker.Start | src/statsvy/utils/timeout_checker.py:37-48 | `start` and `__enter__` set the start time to now and keep the limit, which stays non-negative |
| TimeoutChecker.Checker.Exit | src/statsvy/utils/timeout_checker.py:42-44 | `__exit__` changes nothing |
| TimeoutChecker.Checker.Check | src/statsvy/utils/timeout_checker.py:50-71 | `check` raises what `CheckOutcome` says for the checker's state; with a non-negative limit, a check no later than the start never raises |
| TimeoutChecker.Checker.Elapsed | src/statsvy/utils/timeout_checker.py:73-84 | `elapsed` returns what `ElapsedOutcome` says for the checker's state |
| PerformanceTracker.CpuCount | src/statsvy/core/performance_tracker.py:115 | the core count used is at least 1 and is the reported count whenever that is at least 1 |
| PerformanceTracker.CpuFigures | src/statsvy/core/performance_tracker.py:104-121 | user and system times are never negative, CPU time is their sum, and the all-cores load is between 0 and the single-core load |
| PerformanceTracker.StopMetrics | src/statsvy/core/performance_tracker.py:90-130 | peak memory is reported only when tracking memory; the CPU figures are all present when CPU was tracked and all absent otherwise |
| PerformanceTracker.Tracker.constructor | src/statsvy/core/performance_tracker.py:39-53 | a new tracker holds its two switches and is not active |
| PerformanceTracker.Tracker.Start | src/statsvy/core/performance_tracker.py:55-76 | starting a running tracker raises RuntimeError and changes nothing; otherwise it becomes active with the CPU snapshots taken when tracking CPU |
| PerformanceTracker.Tracker.Stop | src/statsvy/core/performance_tracker.py:78-130 | stopping an idle tracker raises RuntimeError and changes nothing; otherwise it becomes inactive and returns `StopMetrics` of its snapshots |
| PerformanceTracker.StartStopStart | src/statsvy/core/performance_tracker.py:55-130 | a stopped tracker can be started again |
| GitStats.SliceTo | src/statsvy/core/git_stats.py:144 | `xs[:n]` keeps the first `n` elements, or all but the last `-n` for a negative `n` |
| GitStats.SliceToSorted | src/statsvy/core/git_stats.py:143-144 | a prefix of a sorted list without repeats is sorted, without repeats, and drawn from the list |
| GitStats.SliceToDropped | src/statsvy/core/git_stats.py:143-144 | an element of a sorted list cut off by `[:n]` sorts after every element kept, and the cut keeps exactly `n` (or all but the last `-n`) |
| GitStats.ContributorsNone | src/statsvy/core/git_stats.py:127-146 | for non-empty output there are no contributors exactly when every line is blank |
| GitStats.Contributors | src/statsvy/core/git_stats.py:127-146 | a failed command or empty output gives no contributors; contributors reported are sorted without repeats and no more than a non-negative limit |
| GitStats.ContributorsShape | src/statsvy/core/git_stats.py:127-146 | contributors are sorted, distinct, non-empty stripped names of output lines, and no more than the limit; a non-blank name left out sorts after every name reported, and a non-negative limit is then reached exactly |
| GitStats.StrippedMembers | src/statsvy/core/git_stats.py:142-143 | a name is kept exactly when it is the non-empty stripped text of some line |
| GitStats.LastCommitDate | src/statsvy/core/git_stats.py:149-162 | a date is reported exactly when git succeeds with non-empty output, and it is that output |
| GitStats.CommitsLast30Days | src/statsvy/core/git_stats.py:225-238 | empty output counts 0, other output is read by `int()`, and a failed command gives nothing |
| GitStats.CommitsLast30DaysRoundTrip | src/statsvy/core/git_stats.py:225-238 | a count printed by git is read back as the same number |
| GitStats.BranchOfLine | src/statsvy/core/git_stats.py:181-187 | a line gives a branch only when it is non-empty after the `* ` marker is removed and is not a `remotes/` branch |
| GitStats.BranchList | src/statsvy/core/git_stats.py:179-187 | every branch collected is a non-empty local branch name |
| GitStats.BranchListMembers | src/statsvy/core/git_stats.py:179-187 | a branch is collected exactly when some line of the output names it |
| GitStats.CollectBranch | src/statsvy/core/git_stats.py:181-187 | one turn of the loop appends the line's branch exactly when it names a non-empty local branch |
| GitStats.GetBranches | src/statsvy/core/git_stats.py:165-191 | the loop returns the branches `Branches` describes |
| GitStats.Branches | src/statsvy/core/git_stats.py:165-191 | a failed command or blank output gives no branches; branches reported are sorted without repeats, at least one and at most five |
| GitStats.BranchesShape | src/statsvy/core/git_stats.py:165-191 | the branches reported are sorted, distinct, local, non-empty, at most five and each named by an output line; a branch named by a line but left out sorts after every branch reported, which then number exactly five |
| GitStats.CurrentBranchMarker | src/statsvy/core/git_stats.py:182-183 | the current branch, marked `* `, is reported under its own name |
| GitStats.ExtractGitMetadata | src/statsvy/core/git_stats.py:67-124 | the repository is a git repository, has a remote URL exactly when it has remotes, and reports the contributors and branches as read |
| GitStats.DetectRepository | src/statsvy/core/git_stats.py:19-64 | a repository is reported exactly when one is found and is not bare; otherwise the result is the empty `GitInfo` |
| GitStats.NotARepositoryEmpty | src/statsvy/core/git_stats.py:19-64 | outside a repository every field of the result is empty |
| ReleaseHook.FirstSubject | hooks/require_release_on_main.py:39-46 | the subject is empty exactly when every line is blank |
| ReleaseHook.FirstSubjectIsFirst | hooks/require_release_on_main.py:41-45 | a non-empty subject is the stripped text of a line before which every line is blank |
| ReleaseHook.Main | hooks/require_release_on_main.py:49-83 | the hook exits with 0 or 1 |
| ReleaseHook.MainRejects | hooks/require_release_on_main.py:49-83 | a commit is rejected exactly when a message file is given, the branch is `main`, and the subject does not start with `release` in any case |
| ReleaseHook.BlankMessageRejected | hooks/require_release_on_main.py:70-81 | on `main` a message with only blank lines is rejected |
| ReleaseHook.FirstLineDecides | hooks/require_release_on_main.py:39-83 | on `main` the first line alone decides, whatever follows it |
| ReleaseHook.SubjectOfFirstLine | hooks/require_release_on_main.py:39-46 | a first line without surrounding blanks ended by a newline is the subject |
| CliFlags.FillUnsetGet | src/statsvy/cli_main.py:167-174 | filling a flag sets it only when unset and touches no other key |
| CliFlags.ProfileAliasedGet | src/statsvy/cli_main.py:158-175 | without a profile nothing changes; with one, every unset tracking flag takes the profile's value and every other key is kept |
| CliFlags.ProfileAliased | src/statsvy/cli_main.py:158-175 | without a profile nothing changes; with one, `track_performance` and the three trackers all end up set; a flag the user set keeps its value |
| CliFlags.TrackPerformanceMappedGet | src/statsvy/cli_main.py:177-192 | without `track_performance` nothing changes; with it, every unset tracker takes its value and every other key is kept |
| CliFlags.TrackPerformanceMapped | src/statsvy/cli_main.py:177-192 | without `track_performance` nothing changes; with it, the three trackers all end up set; a flag the user set keeps its value |
| CliFlags.NormalizedTracker | src/statsvy/cli_main.py:194-200 | a tracker ends up with the user's value, else the profile's, else `track_performance`'s; any other key except `track_performance` is unchanged |
| CliFlags.Normalized | src/statsvy/cli_main.py:194-200 | given a profile or `track_performance`, every tracker ends up set, and a flag the user set keeps its value |
| CliFlags.FillUnset | src/statsvy/cli_main.py:167-168 | filling a flag with a value that is not `None` leaves it set, and keeps every flag already set |
| CliFlags.FillTrackers | src/statsvy/cli_main.py:186-191 | filling the three trackers with a value that is not `None` leaves all of them set and keeps every flag already set |
| CliFlags.KwargsBox.ApplyProfileAlias | src/statsvy/cli_main.py:158-175 | the keyword arguments become `ProfileAliased` of the old ones |
| CliFlags.KwargsBox.ApplyTrackPerformanceMapping | src/statsvy/cli_main.py:177-192 | the keyword arguments become `TrackPerformanceMapped` of the old ones |
| CliFlags.KwargsBox.NormalizeScanProfileFlags | src/statsvy/cli_main.py:194-200 | the keyword arguments become `Normalized` of the old ones |

## Left out

- Pygments lexing is not modelled. Lexer choice (`guess_lexer_for_filename`) and tokenisation are a foreign library, so the token stream, and whether the text lexer was chosen, are inputs to `LanguageAnalyzer`.
- File system access is not modelled: directory walking, `stat`, reading files, SHA-256 hashing, `Path.match` globbing and `Path.resolve`. They are the opaque functions of `Scanner.FileSystem` and `Analyzer.FileFacts`, or the file's parsed content is given.
- TOML, JSON and YAML parsing and `json.dumps` are not modelled. Parsed documents are `Json.Value` inputs. The history file's `json.loads`/`json.dumps` pair is the `HistoryStorage.Codec` parameter, assumed to round-trip only where a lemma requires it.
- Floating point is modelled as exact reals, and only where a contract needs it:
  - `float()` and `parse_size_to_mb` are parameters of the configuration converter (`ConfigValues.Parsers`).
  - The size bounds reach the scanner already in bytes.
  - The `repr` of a float is carried alongside its value (`Json.PyFloat`).
- Formatting.FormatSize: the decimal text of `format_size` is modelled by exact decimal rounding of a real (`Fixed2`). Binary floating-point rounding of the quotient is not modelled.
- `percent_delta_str`: only its guard (no previous value, or zero) and the exact ratio are modelled, not the float formatting.
- Clocks, `tracemalloc`, `resource.getrusage` and `os.cpu_count` are parameters of `TimeoutChecker` and `PerformanceTracker` methods. `datetime.now` is a parameter of the analyzer.
- Git is not run. `GitStats` takes the text each git command prints, or `None` for a failed command. `_get_commits_per_month` (float arithmetic over commit dates) is carried through as a given value. The hook's `_current_branch` (a subprocess call) is the `branch` parameter of `ReleaseHook.Main`.
- ReleaseHook.Main: a failure to read the commit message file (an exception in the source) is not modelled; the file's text is given.
- `HistoryStorage._build_entry` is not modelled, because it combines the current time with the JSON formatter's printed text. `SaveEntry` takes the built entry as a parameter.
- HistoryStorage.SaveEntry returns the text `_write_history` writes. A failed write is not modelled: the source prints the `OSError` and raises it again, so `save_entry` fails with it.
- ProjectInfoSerializer.DeserializeDependency requires `DependencyShaped`: an object whose `name`, `version`, `category` and `source_file`, where present, are strings. The source's `dict.get` accepts any dict and passes a value of another type on into the dataclass unchecked; the model's typed records cannot hold such a value, so it promises nothing for such input.
- ProjectInfoSerializer.DeserializeDependencies requires `DependenciesShaped`: a list of such dependency objects. The source's `dict.get` accepts any dict and passes a value of another type on into the dataclass unchecked; the model's typed records cannot hold such a value, so it promises nothing for such input.
- ProjectInfoSerializer.DeserializeDependencyInfo requires `DependencyInfoShaped`: an object whose counts, where present, are integers, whose `sources` and `conflicts` are lists of strings and whose `dependencies` are dependency objects. The source's `dict.get` accepts any dict and passes a value of another type on into the dataclass unchecked; the model's typed records cannot hold such a value, so it promises nothing for such input.
- ProjectInfoSerializer.DeserializeProjectFileInfo requires `ProjectFileInfoShaped`: an object whose `name` is a string or `None`, whose `source_files` are strings and whose truthy `dependencies` are shaped as above. The source's `dict.get` accepts any dict and passes a value of another type on into the dataclass unchecked; the model's typed records cannot hold such a value, so it promises nothing for such input.
- ProjectMetaSerializer.ReadGitInfo requires `GitInfoShaped`: an object whose present git fields have their annotated types. The source's `dict.get` accepts any dict and passes a value of another type on into the dataclass unchecked; the model's typed records cannot hold such a value, so it promises nothing for such input.
- ProjectMetaSerializer.StoredGitInfo requires `ProjectMetaShaped`: a stored project whose present fields have their annotated types. The source's `dict.get` accepts any dict and passes a value of another type on into the dataclass unchecked; the model's typed records cannot hold such a value, so it promises nothing for such input.
- ProjectMetaSerializer.FromDict requires `ProjectMetaShaped`: a stored project whose present fields have their annotated types. The source's `dict.get` accepts any dict and passes a value of another type on into the dataclass unchecked; the model's typed records cannot hold such a value, so it promises nothing for such input.
- MetricsSerializer.StoredDependencies requires `MetricsShaped`: a stored result whose present fields have their annotated types. The source's `dict.get` accepts any dict and passes a value of another type on into the dataclass unchecked; the model's typed records cannot hold such a value, so it promises nothing for such input.
- MetricsSerializer.FromDict requires `MetricsShaped`: a stored result whose present fields have their annotated types. The source's `dict.get` accepts any dict and passes a value of another type on into the dataclass unchecked; the model's typed records cannot hold such a value, so it promises nothing for such input.
- Console output is not modelled: verbose logging, warnings (such as the loader's warning for a rejected value) and progress bars change no modelled state.
- The timeout checks inside the scanner and analyzer loops are not modelled. They can only abort a scan.
- PyStr.Lower folds ASCII letters only. Python's `str.lower` folds every cased Unicode letter; the names compared here (extensions, section names, `release`) are ASCII in practice.
- `hasattr`/`getattr` on the configuration dataclasses are lookups in a registry of named sections and settings (`ConfigData`). Attribute names that are not fields, such as methods of the dataclass, are not modelled.
- ConfigLoader.MergedExtensions returns the current value unchanged when it is not a tuple. The source annotates it as always a tuple, and the default configuration and every update keep it one (`ExtensionsKept`).
- ConfigLoader.CliValue requires the keyword arguments to have distinct keys, as Python's `**kwargs` always do. ConfigLoader.OverridesUntouched and ConfigEnvReader.PutUnique require distinct sections and settings, which `EnvOverridesUnique` proves the reader produces. The JSON formatter and language detector lemmas that require `Dict.Unique` do so for the same reason.
- Dates.ParseDateTime accepts a `YYYY-MM-DD` date alone, or followed by one separator character and `HH`, `HH:MM`, `HH:MM:SS` or `HH:MM:SS.ffffff`. This covers everything `isoformat()` writes. The other forms `fromisoformat` accepts (time zones, week dates, other fraction lengths) are not modelled.
- Presentation (Rich tables, markdown, HTML and the history and performance formatters), the Click command wiring and the orchestration handlers are outside the modelled core.
- The precomputed `file_data` branch of the analyzer's text reading is not modelled, because `ScanResult` has no such field and the branch cannot be reached.
