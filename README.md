# clangalyzer in Dafny

clangalyzer reads the `-ftime-trace` JSON files that clang writes next to each object file
of an Xcode build. It classifies each file by the build-folder layout
(`…/Platform/Target.build/…/Arch/file.json`), parses its events, and runs a chain of
analysis tools over the traces:

- per-target compile times;
- a per-phase clang breakdown;
- the most expensive code-generation functions, includes and files;
- one serialized project trace;
- gathering the trace files into one folder.

Each tool adds a keyed summary to a `Comparison` store. The store is written as a snapshot
and compared with the previous run's snapshot, row by row, with deltas.

The model has one module per Python file of the core:

- `TimingData` (the trace container and path classifier);
- `TimingDataItem` (one trace event);
- `Comparison`, `Context`, `Clangalyzer` (the input filters), `PathShortener` and `Logger`;
- one module per tool.

It also has helper modules that stand in for Python built-ins: `Wrappers` (Option and
Result), `Json` (decoded JSON as values), `Strings`, `Paths` (`posixpath`) and `Aggregation`
(sums, grouping, filtering and the descending sort).

Objects whose fields the code updates in place are classes: `TimingData`, `Comparison`,
`Context`, `PathShortener` and `Logger`. Their methods state the whole new state. Trace
events are datatype values. A fatal exit, through `log_error_and_exit` or an uncaught
exception, is the `Fatal` outcome of a `Result`.

Some things are parameters of the model rather than computed by it:

- directory listings, file existence and whether a write or copy succeeds;
- the JSON encoder;
- the current time.

Notes on the code:

- `join` takes the *last* `Total ExecuteCompiler` sentinel of a trace and never rejects a
  second one. Only `calculate_total_time` treats a further sentinel as fatal, and only
  while the offset is still zero.
- A percentage delta of 100% or more is truncated toward zero (`int()`), not rounded.

## Model

| member | source | states |
|---|---|---|
| TimingData.Classify | timing_data.py:19-43 | the classifier fails exactly when the great-grandparent folder neither ends in `.build` nor is `SharedPrecompiledHeaders`; a `.build` folder yields its name without the suffix as the target |
| TimingData.SplitsOfTrace | timing_data.py:22-31 | for `pre/t/x/a/f`, the four `os.path.split` steps give `t` as the target folder, `a` as the arch folder and `pre` above them |
| TimingData.ClassifyBuildPath | timing_data.py:22-36 | `…/P/T.build/X/A/f` classifies as `(T, P, A)` |
| TimingData.ClassifySharedPch | timing_data.py:37-39 | a `SharedPrecompiledHeaders` great-grandparent classifies as `("SharedPrecompiledHeaders", "-", "-")` |
| TimingData.ClassifyOther | timing_data.py:40-41 | any other great-grandparent name classifies as nothing |
| TimingData.ParseAllEach | timing_data.py:112-116 | the event loop succeeds exactly when every element is an object whose event parse succeeds, and then yields one event per element, in order, each the parse of its element |
| TimingData.ParseAllFatalStays | timing_data.py:113-116 | a fatal event parse ends the whole parse: once a prefix of the events is fatal, the whole list gives that same failure |
| TimingData.ParseRejectsSchema | timing_data.py:102-110 | the schema check rejects the object exactly when `beginningOfTime` or `traceEvents` is missing or some other key is present |
| TimingData.KeyIn | timing_data.py:102-105 | `key in data` is key membership for an object, element membership for a list and the substring test for a string, and raises for a number, a boolean or `null` |
| TimingData.ParseNonObject | timing_data.py:102-110 | a decoded document that is not an object is never accepted: a number, boolean or `null` ends the run, and a list or string ends it exactly when both keys occur in it (at `data.keys()`), otherwise it is rejected |
| TimingData.LastSentinelAt | timing_data.py:135-138 | the offset advance is `ts+dur` of the last `Total ExecuteCompiler` event, read before shifting |
| TimingData.NoSentinel | timing_data.py:135 | with no `Total ExecuteCompiler` event the offset advances by 0 |
| TimingData.MovedEach | timing_data.py:129-151 | each moved event is the source event with only three fields changed: its time grows by the accumulator's offset, and its pid/tid become those of the accumulator's first event, or of the source's first event when the accumulator is empty; its name is kept |
| TimingData.MoveEvents | timing_data.py:129-153 | the join loop produces exactly the moved events and the last sentinel's total |
| TimingData.TotalTimeCached | timing_data.py:160-166 | once computed, the total is cached: asking again with the cached offset gives the same answer |
| TimingData.ScanNoSentinel | timing_data.py:161-166 | a trace without a sentinel has total 0 |
| TimingData.ScanOneSentinel | timing_data.py:161-166 | a trace with exactly one sentinel has that sentinel's `ts+dur` as total |
| TimingData.ScanAfterNonzero | timing_data.py:162-165 | after a sentinel whose `ts+dur` is nonzero the scan either fails or ends with a nonzero total |
| TimingData.ScanTwoSentinels | timing_data.py:162-164 | a further sentinel after one with nonzero `ts+dur` is fatal |
| TimingData.ScanFatalStays | timing_data.py:163-164 | the fatal exit ends the scan: a fatal prefix makes the whole scan fail the same way |
| TimingData.ApplyReplacementsAppend | timing_data.py:182-183 | the substitutions are applied in sequence, each on the result of the ones before |
| TimingData.ApplyIdentityReplacements | timing_data.py:182-183 | substitutions that map each path to itself leave the text unchanged |
| TimingData.ObjectGraphRoundTrip | timing_data.py:199-207 | parsing back the `traceEvents` of the object graph gives the same number of events with the same times, pids, tids and durations; an `ExecuteCompiler` event reads back as `ExecuteCompiler - <file>` and every other name unchanged; the object lacks `beginningOfTime`, so `parse` would refuse it |
| TimingData.ParseEvents | timing_data.py:112-116 | the event loop computes the event-list parse |
| TimingData.TimingData.constructor | timing_data.py:45-55 | a new trace has the given path, target, platform and arch, no events and offset 0 |
| TimingData.TimingData.Name | timing_data.py:81-83 | the name is the basename of the path, which holds no slash |
| TimingData.TimingData.Parse | timing_data.py:85-118 | a read or JSON failure or a schema violation returns false and adds nothing; a document that is not an object behaves as `key in data` and `data.keys()` do on it; otherwise the parsed events are appended after the existing ones and true is returned; a fatal event parse is fatal; the offset is unchanged |
| TimingData.TimingData.Join | timing_data.py:120-156 | the source's events are moved (shifted by the accumulator's old offset, pid/tid forced to one pair) and appended after the accumulator's events in source order; the offset grows by the source's last sentinel total |
| TimingData.TimingData.CalculateTotalTime | timing_data.py:158-166 | the result is the cached total-time outcome of the events and the old offset; the events are unchanged and a successful result is cached in the offset |
| TimingData.TimingData.ShortenPathsIfNeeded | timing_data.py:176-186 | the text after applying every shortened-path substitution in order |
| TimingData.TimingData.BuildObjectGraph | timing_data.py:192-207 | no graph for zero events; otherwise the object holding only `traceEvents`, one serialised event per event |
| TimingData.TimingData.Write | timing_data.py:188-222 | zero events report success with nothing written; otherwise the encoded object graph with the shortened-path substitutions applied is written, and the result is whether the write succeeded |
| TimingDataItem.ReadInt | timing_data_item.py:86-96 | reading succeeds exactly when the key is present and `int()` accepts its value, and then yields that integer; otherwise the run ends |
| TimingDataItem.ParseItem | timing_data_item.py:98-109 | parsing succeeds exactly when `ts`, `pid` and `tid` are present integers and `dur`, if present, is one; the event then keeps the dictionary and its origin, reads the three fields, and takes `dur` or 0 as its duration |
| TimingDataItem.ShortTotalName | timing_data_item.py:39-43 | for a `Total ` event, `Total ` followed by the short name is the name; for any other event the short name is `""`; the sentinel's short name is `ExecuteCompiler` |
| TimingDataItem.JsonDict | timing_data_item.py:111-128 | the copying loop builds the serialised dictionary |
| TimingDataItem.SerializedKeeps | timing_data_item.py:113-126 | the serialised dictionary has the original keys plus `ts`, `pid`, `tid`; every other original entry, `dur` included, is copied unchanged; only an `ExecuteCompiler` event is renamed to `ExecuteCompiler - <file>`; `ts`, `pid`, `tid` hold the current fields |
| TimingDataItem.IntOfWhole | timing_data_item.py:93 | `int()` of a whole JSON number is that number |
| TimingDataItem.SerializedRoundTrip | timing_data_item.py:98-128 | parsing the serialised dictionary back succeeds and gives the same time, pid, tid and duration; an `ExecuteCompiler` event reads back named `ExecuteCompiler - <file>`, so never as `ExecuteCompiler` again, and every other name reads back unchanged |
| Comparison.Shortened | comparison.py:37-49 | two decimal places below 10, one below 100, otherwise the whole part; the unit follows after a space |
| Comparison.ZeroIsDash | comparison.py:54-55 | a value renders as `-` exactly when it is 0, whatever the unit |
| Comparison.MillisecondsBand | comparison.py:61-65 | a nonzero millisecond value below 1000 renders as `<v>ms`; from 1000 on it renders as seconds with two places, the same magnitude |
| Comparison.FileSizeBands | comparison.py:66-76 | bytes exactly below 1 KB, `KB` exactly from 1 KB below 1 MB, `MB` exactly from 1 MB below 1 GB, `GB` from 1 GB on; a shown decimal times its band's scale is the value, with two places below 10 and one below 100; a whole number is at least 100 and is the value's band-scaled integer part |
| Comparison.KiloCase | comparison.py:69-71 | a size from 1 KB below 1 MB is shown in the KB band |
| Comparison.MegaCase | comparison.py:72-74 | a size from 1 MB below 1 GB is shown in the MB band |
| Comparison.GigaCase | comparison.py:75-76 | a size from 1 GB on is shown in the GB band |
| Comparison.KiloBand | comparison.py:69-70 | `kb` is at least 1 and below 1024 exactly when the size is below 1 MB |
| Comparison.MegaBand | comparison.py:72-73 | `mb` is at least 1 and below 1024 exactly when the size is below 1 GB |
| Comparison.GigaBand | comparison.py:75 | `gb` is at least 1 and scales back to the size |
| Comparison.ShortenedBand | comparison.py:45-49 | a band value of at least 1 is shown with the precision its thresholds give, and a whole number brackets the value at its scale |
| Comparison.NameIn | comparison.py:121-130 | the name is the stored run name, or `""` when the key is absent |
| Comparison.Comparison.constructor | comparison.py:94-119 | a new store holds only the name key, with `""` when no name is given |
| Comparison.Comparison.Loaded | comparison.py:97-106 | a store read from a file holds exactly the decoded dictionary |
| Comparison.Comparison.AddSummary | comparison.py:132-137 | adding under an existing key, the name key included, is fatal and changes nothing; otherwise exactly that key is added |
| Comparison.Comparison.SummaryData | comparison.py:145-153 | the stored summary for the key, or an empty map when the key is missing |
| Comparison.DeltaRules | comparison.py:183-208 | the delta is `n/a` exactly when a side is missing or both are 0; otherwise `+` appears exactly when the value went down and infinity exactly when the earlier value is not positive; a percentage of magnitude 100 or more is its truncation toward zero, a smaller one is truncated to hundredths, and `+` agrees with the percentage's sign |
| Comparison.SortedKeys | comparison.py:166-169 | the sorted key list: strictly ascending, exactly the members of the set, one entry each |
| Comparison.SummaryRow | comparison.py:170-210 | the loop body builds the row for the key: each side rendered or `-` when missing, the delta and its colour |
| Comparison.RowsMatchAppend | comparison.py:170-211 | a further row for its own key keeps every row the row of its key |
| Comparison.LogSummary | comparison.py:155-212 | one row per key of the union of both maps, in strictly ascending key order, each row the row of its key |
| Context.SearchPicksFirst | context.py:161-190 | a found snapshot lies in the first child, in search order, that the search accepts: a directory other than the output folder, holding a snapshot that decodes and, when a name is asked for, carries that name |
| Context.SearchFindsNothing | context.py:161-195 | when the search finds nothing, no child qualifies |
| Context.DescendingOrder | context.py:158-160 | the search visits the listed names in descending order, each exactly as often as listed |
| Context.DefaultSearchRoot | context.py:137-161 | without an explicit snapshot or folder, the search runs over the folder holding the output folder |
| Context.DedupKeepsFirst | context.py:220-226 | a folder is kept exactly when it is the first of its lower-case spelling; the kept folders differ pairwise in lower case and cover every spelling |
| Context.ByTarget | context.py:274-278 | a target's list holds only traces of that target, and every trace of that target |
| Context.GroupIsByTarget | context.py:272-278 | the grouping has one entry per target seen, holding that target's traces in input order |
| Context.NoTargetEmpty | context.py:276-277 | a target no trace has gets no traces |
| Context.GroupOrder | context.py:276-277 | the targets in order of first appearance, each once, exactly the targets seen |
| Context.GroupOrderKeys | context.py:276-279 | the targets in first-appearance order are exactly the keys of the grouping |
| Context.GroupMembers | context.py:274-278 | every trace is in exactly its target's list, and every list holds only traces of its key |
| Context.Context.constructor | context.py:24-40 | a new run state holds the given settings, no last comparison, folders not yet deduplicated and no traces |
| Context.Context.HasOutputPath | context.py:61-71 | an empty output path becomes none, and the answer is false exactly when there is then no path; nothing else changes |
| Context.Context.FindLastComparison | context.py:120-198 | the run fails exactly when loading the chosen snapshot or listing the search root fails; with comparison off or nothing found the last comparison stays as it was; otherwise it holds the chosen snapshot's decoded contents |
| Context.Context.Folders | context.py:204-207 | the folders, deduplicated first if they were not already |
| Context.Context.AddFolder | context.py:209-213 | the folder is appended and the deduplicated flag is cleared |
| Context.Context.DedupeFolders | context.py:215-234 | a second call changes nothing; otherwise the folders become the sorted first-of-each-spelling folders |
| Context.Context.SetTimingDataItems | context.py:260-264 | the traces are replaced and the grouping cache is cleared |
| Context.Context.TimingDataItemsByTargets | context.py:270-279 | the grouping of the traces by target, kept in the cache |
| Clangalyzer.IsNonTimingDataItem | clangalyzer.py:174-184 | the answer is false exactly when the lower-cased basename ends with one of the skip suffixes |
| Clangalyzer.DoesItemMatchTarget | clangalyzer.py:186-217 | with no targets everything matches; with targets an unclassifiable path never matches, and a classified one matches exactly when its normalised target is a normalised filter or starts with `<filter>_` |
| Clangalyzer.NormaliseAll | clangalyzer.py:202-204 | the filter set is the set of lower-cased, stripped targets |
| Clangalyzer.HasPlatformVariant | clangalyzer.py:207-213 | the search finds a hit exactly when the target starts with `<filter>_` for some filter |
| Clangalyzer.ProcessItem | clangalyzer.py:131-172 | a path that is not a file, not `.json`, has a skip suffix, does not match the targets or does not classify gives nothing; otherwise the trace is parsed: a fatal parse is fatal, a failed parse gives nothing, and a successful one gives a fresh trace with that path, classification and parsed events |
| Clangalyzer.EnabledTools | clangalyzer.py:78-83 | the enabled tools are exactly the tools that are enabled, each as often as in the list, and a leading enabled tool comes first |
| Clangalyzer.RunTools | clangalyzer.py:75-86 | the tools run are the enabled ones, in list order |
| Logger.Step | logger.py:81-92 | after an unfinished line the new line replaces it, otherwise the buffer grows by exactly the new line; the finished flag changes only when printing |
| Logger.StatusLineReplaced | logger.py:81-107 | a status line followed by a printed line leaves only the printed line in place of the status |
| Logger.HiddenLineAfterStatus | logger.py:81-114 | a line that is not printed after a status line replaces the status but keeps the buffer unfinished, so the next printed line replaces it in turn |
| Logger.FileTextAppend | logger.py:119-123 | the file text of two buffers in sequence is the concatenation of their texts |
| Logger.RemoveCodesPlain | logger.py:35-46 | decolourising a line without escape characters leaves it unchanged |
| Logger.FileTextPlain | logger.py:119-123 | for lines without escape characters, the file text is the text of all but the last line followed by the last line and a newline |
| Logger.Logger.constructor | logger.py:7-33 | a new logger has the given settings, an empty buffer, the last line finished and no status time |
| Logger.Logger.Color | logger.py:13-32 | a colour is its escape code when colours are on and empty otherwise |
| Logger.Logger.Colorize | logger.py:116-117 | the result is the colour, then the text, then the clear code |
| Logger.Logger.LogInternal | logger.py:74-98 | the buffer takes one buffer step with the stamped line, printing only when asked and not quiet; the printed text is the stripped stamped line |
| Logger.Logger.Log | logger.py:70-72 | a finished line, printed with its time stamp and surrounding space stripped unless quiet |
| Logger.Logger.LogPartialStatus | logger.py:100-107 | with the time check on and the same second as the last status nothing changes; otherwise the time is recorded and an unfinished line is logged, printed stripped unless quiet |
| Logger.Logger.Verbose | logger.py:112-114 | the line is always buffered, and printed stripped only when verbose and not quiet |
| Logger.Logger.LogWarning | logger.py:56-58 | a finished line with the yellow `WARNING:` prefix, and that line stripped is what is printed unless quiet |
| Logger.Logger.LogVerboseWarning | logger.py:60-63 | a warning, printed stripped unless quiet, when verbose; nothing at all otherwise |
| Logger.Logger.LogErrorAndExit | logger.py:65-68 | an empty line, then the red `ERROR:` line, then exit status 1 |
| Logger.Logger.WriteToFile | logger.py:119-123 | every buffered line, decolourised and newline-terminated, in order |
| PathShortener.Added | path_shortener.py:70-76 | inserting keeps the keys distinct and leaves the key present |
| PathShortener.AddedKeepsFirst | path_shortener.py:72-75 | after an insert the key maps to its old value when it had one and to the new value otherwise, and a second insert under the same key changes nothing |
| PathShortener.LookupAppended | path_shortener.py:75 | a key appended as new maps to its value |
| PathShortener.BestOverMinimal | path_shortener.py:97-103 | the result is never longer than the starting path, nor longer than the replacement by any candidate whose key prefixes the path |
| PathShortener.BestOverIsFirstShortest | path_shortener.py:97-103 | the result is the path itself or the replacement by a candidate that is strictly shorter than the path and than the replacement by every earlier candidate |
| PathShortener.PathShortener.constructor | path_shortener.py:16-19 | a new shortener has the given switch and paths |
| PathShortener.PathShortener.AddShortenedPath | path_shortener.py:70-76 | the answer is true exactly when the long path was not present; the paths become the insert-once update |
| PathShortener.PathShortener.ShortenedPaths | path_shortener.py:82-86 | empty when shortening is off, otherwise the paths |
| PathShortener.PathShortener.ShortenPath | path_shortener.py:88-103 | the path unchanged when shortening is off, otherwise the shortest replacement, the earliest on a tie |
| Paths.Split | timing_data.py:22-36 | `os.path.split`: the tail holds no slash |
| Paths.SplitComponent | timing_data.py:22-31 | splitting `q/c` gives back `q` and `c` when `q` does not end in a slash |
| Paths.SplitLastName | timing_data.py:36 | the tail of a path is its last component |
| Paths.Basename | timing_data.py:81-83 | `os.path.basename` is the tail of `os.path.split` |
| Paths.SplitExt | tools/tool_gather_trace_files.py:54 | `os.path.splitext`: root and extension concatenate back to the name |
| Strings.ParseIntUnderscores | timing_data_item.py:92-93 | `int()` of a string skips single underscores between digits: `1_000` reads as 1000 |
| Strings.ParseIntMisplacedUnderscores | timing_data_item.py:92-95 | a doubled underscore, or one at either end of the digits, makes `int()` fail |
| Strings.ReplaceAbsent | path_shortener.py:100 | `str.replace` with a key that does not occur changes nothing |
| Strings.ReplaceBySelf | timing_data.py:183 | replacing a key by itself changes nothing |
| Strings.Lower | context.py:223 | `str.lower` maps each character, keeping the length |
| Strings.TrimLeft | clangalyzer.py:200 | the leading whitespace removed: a suffix that does not start with a space |
| Strings.TrimRight | clangalyzer.py:200 | the trailing whitespace removed: a prefix that does not end with a space |
| Strings.NatToString | tools/tool_gather_trace_files.py:55 | `str(n)` of a natural number is a nonempty string of digits |
| Strings.DigitsOfNatToString | tools/tool_gather_trace_files.py:55 | the digits of `str(n)` have the value `n` |
| Strings.ParseIntOfNatToString | timing_data_item.py:93 | `int()` reads `str(n)` back as `n` |
| Strings.Trunc | timing_data_item.py:93 | `int()` of a number truncates toward zero |
| Strings.TruncDivIsTrunc | tools/tool_output_target_times.py:69-70 | the integer truncating division is `int()` of the exact quotient |
| Strings.TruncDivMonotone | tools/tool_find_most_expensive_includes.py:152-153 | truncating division by a positive number keeps the order |
| Strings.LessIrreflexive | comparison.py:169 | string order is irreflexive |
| Strings.LessTransitive | comparison.py:169 | string order is transitive |
| Strings.LessTotal | comparison.py:169 | any two distinct strings are ordered one way |
| Strings.LessAsymmetric | comparison.py:169 | string order is asymmetric |
| Strings.Sort | context.py:228 | sorting is a permutation |
| Strings.SortIsSorted | context.py:228 | the sorted list is ascending |
| Strings.SortOfSorted | context.py:228 | sorting a sorted list changes nothing |
| Strings.SortedDistinctIsStrict | comparison.py:166-169 | an ascending list without duplicates is strictly ascending |
| Strings.Reverse | context.py:160 | `list.reverse`: the element at `i` is the element at the mirrored index |
| ToolOutputTargetTimes.TracesOf | tools/tool_output_target_times.py:40-45 | each trace as its target and its events, in order |
| ToolOutputTargetTimes.SentinelsOnly | tools/tool_output_target_times.py:45-51 | only `Total ExecuteCompiler` durations are counted |
| ToolOutputTargetTimes.TargetTimesAre | tools/tool_output_target_times.py:40-52 | every target seen gets an entry, even when its total is 0, and a target's entry is the sum of its traces' sentinel durations |
| ToolOutputTargetTimes.GrandTotalIsSumOfTargets | tools/tool_output_target_times.py:50-51 | the raw grand total is the sum of the raw per-target totals |
| ToolOutputTargetTimes.AddSentinels | tools/tool_output_target_times.py:45-51 | the inner loop adds the trace's sentinel durations to both the target's total and the grand total |
| ToolOutputTargetTimes.AddTrace | tools/tool_output_target_times.py:41-52 | one trace more: the per-target totals and grand total are those of the traces so far plus this one |
| ToolOutputTargetTimes.CollectTargetTimes | tools/tool_output_target_times.py:33-52 | the loop computes the per-target totals and the grand total of all traces |
| ToolOutputTargetTimes.TargetMilliseconds | tools/tool_output_target_times.py:64-70 | each target's entry becomes `int(total/1000)` |
| ToolOutputTargetTimes.Compute | tools/tool_output_target_times.py:33-75 | no summary exactly when there are no traces (so no targets); otherwise each target at `int(raw/1000)` and the total key at `int(grand/1000)` |
| ToolOutputTargetTimes.Run | tools/tool_output_target_times.py:32-78 | with no traces the tool returns without adding a summary; otherwise the summary is added once under `Target Times`, which is fatal when the key is taken |
| ToolClangBreakdown.SkippedBand | tools/tool_clang_breakdown.py:64-67 | a phase is omitted exactly when its total is under 10000 µs in magnitude, where its seconds truncated to two places print as `0.0` |
| ToolClangBreakdown.NameTotalsAreSums | tools/tool_clang_breakdown.py:47-62 | a name's total is the sum of the durations of the events with that short total name, over the events with a non-empty one |
| ToolClangBreakdown.NameTotalsKeys | tools/tool_clang_breakdown.py:48-54 | the names are exactly the non-empty short total names of the events |
| ToolClangBreakdown.GrandTotalIsSumOfPhases | tools/tool_clang_breakdown.py:58-63 | the grand total, summed over every name including the skipped ones, is the sum of all grouped events' durations |
| ToolClangBreakdown.ItemsByNameStep | tools/tool_clang_breakdown.py:48-54 | one event more: an unnamed event changes nothing, a named one is appended to its name's list, which it starts when new |
| ToolClangBreakdown.GroupByName | tools/tool_clang_breakdown.py:43-54 | the loops group every event of every trace by short total name, in order |
| ToolClangBreakdown.GroupTrace | tools/tool_clang_breakdown.py:46-54 | the inner loop groups one more trace's events |
| ToolClangBreakdown.SumDurations | tools/tool_clang_breakdown.py:59-62 | the inner loop sums the durations of a name's events |
| ToolClangBreakdown.PhaseSummary | tools/tool_clang_breakdown.py:56-70 | the summary holds `int(total/1000)` for every name that is not skipped, and the grand total sums every name's total |
| ToolClangBreakdown.Phases | tools/tool_clang_breakdown.py:43-70 | the kept phases of the name totals, and the grand total of all named events |
| ToolClangBreakdown.Compute | tools/tool_clang_breakdown.py:43-72 | the kept phases plus the total key at `int(grand/1000)` |
| ToolClangBreakdown.Run | tools/tool_clang_breakdown.py:35-75 | the summary is added once under `Clang Breakdown`, which is fatal when the key is taken |
| ToolFindMostExpensiveCodegen.ByTargetKeys | tools/tool_find_most_expensive_codegen.py:63-69 | a target has a list exactly when some listed event has that target |
| ToolFindMostExpensiveCodegen.ByTargetLists | tools/tool_find_most_expensive_codegen.py:63-76 | each target's list is a permutation of the kept events of that target, sorted by descending duration, and holds only listed events of that target |
| ToolFindMostExpensiveCodegen.ShownAreLongest | tools/tool_find_most_expensive_codegen.py:74-80 | at most 20 events are shown, all listed, in descending duration, and none left out is longer than one shown |
| ToolFindMostExpensiveCodegen.SortedListed | tools/tool_find_most_expensive_codegen.py:54-74 | the sorted overall list holds exactly the `CodeGen Function` events of at least 1 ms with a detail |
| ToolFindMostExpensiveCodegen.InspectItem | tools/tool_find_most_expensive_codegen.py:48-69 | one event more: every codegen event adds to the total; only one of at least 1 ms with a detail joins the overall list and its target's list |
| ToolFindMostExpensiveCodegen.InspectTrace | tools/tool_find_most_expensive_codegen.py:46-69 | the inner loop extends the kept list, the per-target lists and the total by one trace's events |
| ToolFindMostExpensiveCodegen.Inspect | tools/tool_find_most_expensive_codegen.py:38-69 | the loops keep every codegen event of at least 1 ms with a detail, group them by target and total every codegen event's duration |
| ToolFindMostExpensiveCodegen.Rows | tools/tool_find_most_expensive_codegen.py:115-117 | one row per event, each its truncated milliseconds and detail |
| ToolFindMostExpensiveCodegen.WriteSummaryForTargets | tools/tool_find_most_expensive_codegen.py:95-123 | the result is whether the write succeeded; the sections are the targets in strictly ascending order, exactly the targets with a list, each with one row per event of its list |
| ToolFindMostExpensiveCodegen.UpdateEach | tools/tool_find_most_expensive_codegen.py:75-76 | the loop over the entries replaces each value by its image, keeping the keys |
| ToolFindMostExpensiveCodegen.SortLists | tools/tool_find_most_expensive_codegen.py:73-76 | the overall list and every per-target list are sorted by descending duration |
| ToolFindMostExpensiveCodegen.Collect | tools/tool_find_most_expensive_codegen.py:38-76 | the sorted overall list, the sorted per-target lists and the total of all codegen events |
| ToolFindMostExpensiveCodegen.Report | tools/tool_find_most_expensive_codegen.py:38-91 | the first 20 of the sorted list are shown, the sections follow the per-target lists, and the summary holds the total key at the total in milliseconds |
| ToolFindMostExpensiveCodegen.Run | tools/tool_find_most_expensive_codegen.py:35-93 | a failed write returns false before any summary; otherwise the summary is added once under `CodeGen Times`, fatal when the key is taken, and true is returned |
| ToolFindMostExpensiveIncludes.AddItemIs | tools/tool_find_most_expensive_includes.py:86-114 | adding an event touches only the bucket of its lowercased path under the given target; a new bucket takes the event's spelling, an existing one keeps its first spelling while its count rises by one, its total by the duration and the event is appended |
| ToolFindMostExpensiveIncludes.AddToFilesOk | tools/tool_find_most_expensive_includes.py:106-114 | adding keeps every bucket's count, total and item list consistent with each other |
| ToolFindMostExpensiveIncludes.BucketizeIs | tools/tool_find_most_expensive_includes.py:86-114 | the buckets of a run of events hold, per lowercased path, exactly the events with that path in order, spelled as the first of them, with their summed duration and their number |
| ToolFindMostExpensiveIncludes.BucketizeStep | tools/tool_find_most_expensive_includes.py:106-114 | one event more keeps that description of the buckets |
| ToolFindMostExpensiveIncludes.BucketStepAt | tools/tool_find_most_expensive_includes.py:106-114 | the same, for one path |
| ToolFindMostExpensiveIncludes.BucketGrow | tools/tool_find_most_expensive_includes.py:110-112 | an event added to an existing bucket extends its events, count and total |
| ToolFindMostExpensiveIncludes.BucketNew | tools/tool_find_most_expensive_includes.py:113-114 | a new bucket describes its single event |
| ToolFindMostExpensiveIncludes.AllBucketsSplit | tools/tool_find_most_expensive_includes.py:57-65 | the project entry exists once there is an event and holds the buckets of all events; a target entry exists exactly when an event of that target occurs and holds the buckets of that target's events |
| ToolFindMostExpensiveIncludes.AllBucketsSnoc | tools/tool_find_most_expensive_includes.py:64-65 | each event is added once for the project and once for its target |
| ToolFindMostExpensiveIncludes.BucketizeSnoc | tools/tool_find_most_expensive_includes.py:106-114 | the buckets of a longer run are those of the shorter with the event added |
| ToolFindMostExpensiveIncludes.SplitStep | tools/tool_find_most_expensive_includes.py:64-65 | one event more keeps the split between project and targets |
| ToolFindMostExpensiveIncludes.IncludeCountIs | tools/tool_find_most_expensive_includes.py:67-73 | the include count is the number of distinct lowercased paths, and the project entry is missing exactly when no event was counted |
| ToolFindMostExpensiveIncludes.TraceSetsAre | tools/tool_find_most_expensive_includes.py:45-48 | a target is recorded exactly when some trace has it, with exactly the paths of its traces |
| ToolFindMostExpensiveIncludes.GatherTrace | tools/tool_find_most_expensive_includes.py:57-65 | the events of one trace are added in order |
| ToolFindMostExpensiveIncludes.GatherItem | tools/tool_find_most_expensive_includes.py:57-65 | an event is added only when it is a `Source` event with a non-empty detail and a non-empty target |
| ToolFindMostExpensiveIncludes.Gather | tools/tool_find_most_expensive_includes.py:36-65 | the buckets are those of every counted event of every trace, together with the per-target trace paths and the target order |
| ToolFindMostExpensiveIncludes.NoteTrace | tools/tool_find_most_expensive_includes.py:45-48 | one trace more extends the per-target trace paths and the target order |
| ToolFindMostExpensiveIncludes.ByTotal | tools/tool_find_most_expensive_includes.py:148 | the buckets of a target, largest total first, each exactly once |
| ToolFindMostExpensiveIncludes.ListRows | tools/tool_find_most_expensive_includes.py:150-164 | the rows descend by milliseconds and are exactly those of the listable buckets, with truncated milliseconds and the average over the count |
| ToolFindMostExpensiveIncludes.CountTraces | tools/tool_find_most_expensive_includes.py:136-137 | the number of traces summed over the targets |
| ToolFindMostExpensiveIncludes.AllBucketsOk | tools/tool_find_most_expensive_includes.py:86-114 | every bucket ever built is consistent |
| ToolFindMostExpensiveIncludes.Section | tools/tool_find_most_expensive_includes.py:148-164 | a section holds, largest first, a row for every listable bucket of its target and nothing else |
| ToolFindMostExpensiveIncludes.WriteSortedByTime | tools/tool_find_most_expensive_includes.py:116-211 | succeeds exactly when the file can be written and the project entry exists; unsorted it has one project section over all traces, by target one section per real target in name order, each over that target's traces and leaving out single-use files |
| ToolFindMostExpensiveIncludes.WriteSortedByFile | tools/tool_find_most_expensive_includes.py:213-253 | succeeds exactly when the file can be written; lists every project bucket once, in order of its lowercased path |
| ToolFindMostExpensiveIncludes.CountedBuckets | tools/tool_find_most_expensive_includes.py:57-73 | the project entry exists exactly when some event was counted, and then holds one bucket per counted path; the target entries are exactly the targets of counted events |
| ToolFindMostExpensiveIncludes.WriteReports | tools/tool_find_most_expensive_includes.py:76-84 | all three reports are written exactly when all three files can be; the by-time report covers every counted event, the by-target one every target, the by-file one every path |
| ToolFindMostExpensiveIncludes.Run | tools/tool_find_most_expensive_includes.py:32-84 | nothing is reported exactly when no include event was counted; otherwise success means all three files were written, with the contents above |
| ToolSerializeProjectTrace.JoinedSnoc | tools/tool_serialize_project_trace.py:51-52 | joining one trace more appends its events moved by the offset so far, and advances the offset by its last sentinel total |
| ToolSerializeProjectTrace.JoinedEvents | tools/tool_serialize_project_trace.py:49-52 | the project trace holds every event of every trace, in order, each with its own dictionary, duration and file |
| ToolSerializeProjectTrace.JoinedOneProcess | timing_data.py:129-151 | every event of the project trace carries the pid and tid of its first event |
| ToolSerializeProjectTrace.MovedPid | timing_data.py:129-151 | a moved event takes the pid and tid of the accumulator's first event, or of the source's first when the accumulator is empty |
| ToolSerializeProjectTrace.TruncPlaceBounds | utils/truncation.py:1-17 | truncating to a decimal place moves a value toward zero and never past it |
| ToolSerializeProjectTrace.Summary | tools/tool_serialize_project_trace.py:56-66 | the summary has exactly the two CPU-seconds keys: the total is microseconds over a million cut to four places, the average is that total over the number of traces (one when there are none) cut to two places |
| ToolSerializeProjectTrace.AverageBounded | tools/tool_serialize_project_trace.py:56-60 | for a non-negative total the average lies between zero and the total, and with at most one trace it is the total cut to two places |
| ToolSerializeProjectTrace.JoinAll | tools/tool_serialize_project_trace.py:51-52 | joining every trace in turn onto the empty project trace yields the joined events and offset of all of them; afterwards each trace holds its own events moved past the traces joined before it, and keeps its offset |
| ToolSerializeProjectTrace.JoinStep | tools/tool_serialize_project_trace.py:51-52 | one pass of the loop joins trace `i`, records its moved events, and changes no other trace |
| ToolSerializeProjectTrace.JoinedAllTraces | tools/tool_serialize_project_trace.py:51-52 | when the loop ends every trace holds its moved events and its old offset |
| ToolSerializeProjectTrace.MovedAllAt | tools/tool_serialize_project_trace.py:51-52 | each joined trace depends only on itself and on the traces joined before it |
| ToolSerializeProjectTrace.JoinedFlattensMoved | tools/tool_serialize_project_trace.py:51-52 | the project trace is the joined traces' moved events, one trace after another |
| ToolSerializeProjectTrace.JoinNext | tools/tool_serialize_project_trace.py:51-52 | one join extends the project trace by that trace's moved events, leaves the joined trace holding exactly those moved events, and keeps its offset |
| ToolSerializeProjectTrace.ProjectTrace | tools/tool_serialize_project_trace.py:47-52 | a fresh trace at `serial_trace.json` under the output folder, with empty target, platform and architecture, holding the joined events and offset; every source trace is left holding its moved events, with its offset unchanged |
| ToolSerializeProjectTrace.Run | tools/tool_serialize_project_trace.py:44-68 | the project trace is written only when serializing, with the shortened paths substituted; a failed write or an already present `Serial Times` summary ends the run, otherwise exactly that summary is added; every source trace is left holding its moved events, with its offset unchanged |
| ToolSerializeProjectTrace.Finish | tools/tool_serialize_project_trace.py:53-68 | the write happens only when serializing and a failed write ends the run; otherwise the summary is added unless one is already present under the key |
| ToolFindMostExpensiveFiles.ConcatMembers | tools/tool_find_most_expensive_files.py:49-50 | the merged list holds exactly the traces of the listed targets |
| ToolFindMostExpensiveFiles.Buckets | tools/tool_find_most_expensive_files.py:41-51 | every trace a bucket lists is one of the project's traces |
| ToolFindMostExpensiveFiles.ListsInTraces | tools/tool_find_most_expensive_files.py:41-51 | each target of the grouping has a list, and every listed or merged trace is one of the project's |
| ToolFindMostExpensiveFiles.MergedBucketCovers | tools/tool_find_most_expensive_files.py:44-51 | merged, a project with traces has a single bucket named `""` that holds exactly its traces |
| ToolFindMostExpensiveFiles.TargetBucketsCover | tools/tool_find_most_expensive_files.py:41-56 | by target, each bucket holds exactly the traces of its target, and every trace's target has a bucket |
| ToolFindMostExpensiveFiles.BucketsEmpty | tools/tool_find_most_expensive_files.py:44-60 | there are no buckets exactly when there are no traces |
| ToolFindMostExpensiveFiles.FatalIffSomeTrace | tools/tool_find_most_expensive_files.py:55 | a bucket holds a trace whose total time fails exactly when some trace's does |
| ToolFindMostExpensiveFiles.CachedTotal | timing_data.py:158-166 | the total time is the one the trace's state gives, and once computed it is kept |
| ToolFindMostExpensiveFiles.TimeBucket | tools/tool_find_most_expensive_files.py:55-72 | timing a bucket fails exactly when one of its traces fails; otherwise it yields each trace's time and name in the bucket's order |
| ToolFindMostExpensiveFiles.TimeTrace | tools/tool_find_most_expensive_files.py:55 | one trace's total time, as recorded before the run |
| ToolFindMostExpensiveFiles.LinesSnoc | tools/tool_find_most_expensive_files.py:69-72 | one trace more adds its line at the end |
| ToolFindMostExpensiveFiles.TimeBuckets | tools/tool_find_most_expensive_files.py:54-72 | timing all buckets fails exactly when some trace fails; otherwise it yields every bucket's section in order |
| ToolFindMostExpensiveFiles.SectionsSnoc | tools/tool_find_most_expensive_files.py:63-72 | one bucket more adds its section at the end |
| ToolFindMostExpensiveFiles.TimeSection | tools/tool_find_most_expensive_files.py:54-72 | a section holds the bucket's name and its traces from longest to shortest, or fails when one of them does |
| ToolFindMostExpensiveFiles.NoneFailed | tools/tool_find_most_expensive_files.py:54-72 | when every bucket is timed, no trace failed |
| ToolFindMostExpensiveFiles.CurrentIsSnapshot | tools/tool_find_most_expensive_files.py:55-70 | recomputing the total times gives the recorded ones |
| ToolFindMostExpensiveFiles.WriteSummary | tools/tool_find_most_expensive_files.py:36-75 | fails exactly when some trace's total time fails; with no traces nothing is written; otherwise the report has every bucket's section, and the total times do not change |
| ToolFindMostExpensiveFiles.GatherBuckets | tools/tool_find_most_expensive_files.py:41-51 | the buckets of the report, merged or by target |
| ToolFindMostExpensiveFiles.MergeLists | tools/tool_find_most_expensive_files.py:45-51 | the merged list is the target lists one after the other |
| ToolFindMostExpensiveFiles.ListBuckets | tools/tool_find_most_expensive_files.py:41-54 | one bucket per target, in grouping order, with that target's list |
| ToolFindMostExpensiveFiles.Run | tools/tool_find_most_expensive_files.py:31-34 | the merged and the by-target reports; the run fails exactly when some trace's total time fails, an empty project writes neither, and otherwise both have every section |
| ToolGatherTraceFiles.WithSuffix | tools/tool_gather_trace_files.py:53-55 | the suffixed candidate is longer than the one it replaces |
| ToolGatherTraceFiles.FreeNameIsFree | tools/tool_gather_trace_files.py:45-59 | the de-duplicated name never exists in the folder |
| ToolGatherTraceFiles.FreeNameKeepsFree | tools/tool_gather_trace_files.py:56-59 | a base name that does not exist is kept unchanged |
| ToolGatherTraceFiles.SuffixesCompound | tools/tool_gather_trace_files.py:53-59 | the suffixes pile up: with `a.json` and `a-2.json` present, the copy of `a.json` is named `a-2-3.json` |
| ToolGatherTraceFiles.ChooseName | tools/tool_gather_trace_files.py:43-59 | the loop settles on the de-duplicated name of the trace's base name |
| ToolGatherTraceFiles.Destination | tools/tool_gather_trace_files.py:43-59 | a copy's name is one that does not exist in the folder |
| ToolGatherTraceFiles.AfterCopy | tools/tool_gather_trace_files.py:61-66 | a copy that succeeds adds its name to the folder; one that fails leaves the folder as it was |
| ToolGatherTraceFiles.Destinations | tools/tool_gather_trace_files.py:40-66 | one name per trace |
| ToolGatherTraceFiles.DestinationsFresh | tools/tool_gather_trace_files.py:40-66 | no copy lands on a name that was in the folder before the run |
| ToolGatherTraceFiles.DestinationsDistinct | tools/tool_gather_trace_files.py:40-66 | no copy overwrites an earlier successful one |
| ToolGatherTraceFiles.GatheredKeeps | tools/tool_gather_trace_files.py:61-66 | copying only adds names to the folder |
| ToolGatherTraceFiles.GatheredHolds | tools/tool_gather_trace_files.py:40-66 | every successful copy is in the folder afterwards |
| ToolGatherTraceFiles.PathsOf | tools/tool_gather_trace_files.py:40-41 | the path of every trace, in order |
| ToolGatherTraceFiles.Run | tools/tool_gather_trace_files.py:33-66 | a missing folder starts empty; every trace is counted, copied under the name the loop chooses, and the folder ends up holding exactly the result of the copies |
| Aggregation.SortDesc | tools/tool_find_most_expensive_files.py:55 | a permutation of its input, in descending order of the key |
| Aggregation.InsertDesc | tools/tool_find_most_expensive_files.py:55 | inserting adds exactly the element and keeps a descending sequence descending |
| Aggregation.GroupByHaving | tools/tool_clang_breakdown.py:44-53 | grouping keys are exactly the keys that occur, and each group holds exactly the elements with its key, in order |
| Aggregation.SumByKeyIsGroupSum | tools/tool_clang_breakdown.py:44-61 | per-key sums have exactly the occurring keys, each the sum over the elements with that key |
| Aggregation.FilterMembers | tools/tool_find_most_expensive_codegen.py:54-63 | a filter keeps exactly the elements that pass and as many of each as the input has |

## Left out

- File-system I/O (`os.listdir`, `os.walk`, `open`, `shutil.copy2`, `os.mkdir`, `realpath`, opening the report) and the worklist of `_find_build_data`. Listings, existence and write/copy success are inputs.
- JSON decoding and encoding: a parsed document is a `Json` value, and the encoder is a function parameter.
- Text rendering of floats (`%0.2f`, `str(float)`): the bands, thresholds and precisions are modelled, not the digits.
- Report layout: the column widths and separators of the report files.
- The `tool_show_build_folder_size` and `tool_show_precomp_header_sizes` tools: they are only `os.walk` and size sums.
- `tool.py`: a plugin base class whose only logic is "must implement" assertions.
- Command-line parsing: `add_arguments`, `process_arguments`, `*_from_args` and `PathShortener.keyvalue`. Their results are constructor arguments.
- Xcode discovery (`_determine_xcode_path`, `add_xcode_paths`): it runs a subprocess.
- Terminal detection, ANSI cursor control and printing, and wall-clock reads. The time is a parameter of `LogPartialStatus`, and output-folder naming by time is not modelled.
- The `process_comparison` methods of the tools: they only call `Comparison.log_summary`, which is modelled.
- Concurrency: none exists in the source.
- Logger.Logger.Log: the `force_print` argument is accepted and has no effect, as in the source.
- Aggregation.SortDesc: the permutation and the descending order are proved, but not that equal keys keep their input order as Python's stable sort does. The tie order of every report is therefore not stated.
- ToolFindMostExpensiveIncludes.ByTotal: states the order and the members of its result, not the tie order.
- ToolClangBreakdown.PhaseSummary: the skip rule uses the exact integer test `int(total / 10000) == 0` in place of the float comparison `str(truncate(total / 1e6, 2)) == "0.0"`. These differ only where float rounding would.
- Strings.TruncDiv: the exact integer quotient stands for `int(a / b)`, where Python's float division first rounds large values.
- TimingDataItem.ParseItem: a present `name` or `args.detail` that is not a string reads as `""`.
- TimingData.TimingData.Join: requires the source to be another trace. The source code never joins a trace onto itself.
- ToolSerializeProjectTrace.JoinAll: requires the traces to be distinct objects, as the context's list of discovered traces is.
- ToolSerializeProjectTrace.Summary: the CPU seconds are computed over the reals, not over binary floats.
- ToolFindMostExpensiveFiles.TimeIn: reads `0` for a trace without a total time. The reports call it only for timed traces.
- ToolFindMostExpensiveFiles.Run: the displayed seconds of each line (`truncate_to_place(total / 1e6, 4)`) are not modelled; a line holds the raw total and the name.
- ToolFindMostExpensiveCodegen.WriteSummaryForTargets: the summary value is the exact real number of milliseconds.
- ToolFindMostExpensiveIncludes.WriteSortedByTime: a failure to open the report raises in the source, outside the `try`. The model treats it like a failed write, which returns `False`.
- ToolFindMostExpensiveIncludes.WriteSortedByFile: the same holds for the by-file report (`open` at tools/tool_find_most_expensive_includes.py:236 is outside the `try`): an unopenable file raises in the source, and the model returns `False`, so `Run` gives `Some(false)`.
- TimingData.TimingData.Write: `open` at timing_data.py:215 is outside the `try`, so an output that cannot be opened raises in the source. The model's `writeSucceeds = false` stands for both cases and returns `False`; the serializer then ends the run as fatal either way.
- TimingData.TimingData.Parse: `open` at timing_data.py:89 is outside both `try` blocks, so a trace that cannot be opened ends the run in the source. The model's `data = None` means "read or decoded without success" and gives `Ok(false)`, so the model skips such a file and carries on.
- TimingDataItem.ReadInt: `int()` of a string value is modelled with ASCII digits and ASCII whitespace (single underscores between digits are accepted, as in Python). Python also accepts other Unicode decimal digits and strips Unicode whitespace; those inputs are refused by the model.
- Strings.Lower: ASCII letters only, where Python's `str.lower` follows Unicode. Only non-ASCII text is affected, in Context.Context.DedupeFolders, Clangalyzer.NormaliseAll, Clangalyzer.DoesItemMatchTarget, Clangalyzer.IsNonTimingDataItem, the `.json` test of Clangalyzer.ProcessItem and the include bucket keys of ToolFindMostExpensiveIncludes.AddItemIs.
- Strings.TrimLeft: strips ASCII whitespace only, where Python's `str.lstrip` (used by `strip` and `int`) strips Unicode whitespace too. Affects Clangalyzer.NormaliseAll, Clangalyzer.DoesItemMatchTarget and TimingDataItem.ReadInt for non-ASCII whitespace.
- Strings.TrimRight: the same, for `str.rstrip`.
- ToolGatherTraceFiles.Run: a failed copy is assumed to leave no file behind. The folder listing is read once at the start, and later names come from the copies the model makes.
- TimingData.TimingData.Parse: the events are appended once all of them have parsed. A fatal event ends the run either way, so the partial list is never seen.
- Items are values: `set_timing_data_items` and `timing_data_items` copy lists in the source, and the model's sequences are values already.
- Context.Context.constructor: the Python constructor's mutable defaults (`folders=[]`, `path_shortener=PathShortener()`) are shared by every context built without them, and `add_folder` appends to the list the caller passed. The model gives each context its own folder sequence and shortener, so this sharing and aliasing is not captured.
- PathShortener.PathShortener.constructor: the shared mutable default `paths={}` of the Python constructor is not modelled. Each shortener starts from its own map.
