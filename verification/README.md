# BLF state summary and BOM delta, modelled in Dafny

This project models two parts of the `python-scripts` repository.

**The BLF state summary (`BLFSummary.py`).** A vehicle bus log is decoded into rows. Each row has a time stamp, the ECU system state and the supply voltage. The rows are turned into a table of state intervals in four steps:

1. The times are re-based to the log start, and a terminal row at the log stop is appended. Its state and voltage are NaN.
2. `read_and_filter` passes every row through unchanged.
3. `add_time_columns` collapses each run of equal consecutive states into one interval.
4. `add_off_time_periods` inserts a `'Null'` off-time row between two intervals more than 2 s apart.

After that, `add_cycle_count` stamps every row with a running count of the state-5 intervals lasting more than 800 s. `main` loops over the logs of a directory. It adds the total of the earlier logs to each log's counts, so cycle numbers keep rising across the batch. The state codes are finally replaced by their labels.

**The BOM delta (`ECUBOMDelta.py`).** Two bills of materials keyed by RefDes are outer-joined. Up to four check-box-selected filters remove rows:
- zero quantity on both sides;
- a new part with zero quantity;
- a deprecated part with zero quantity;
- an unchanged line.

The result is sorted by RefDes. The report file name is built from the last `_`-field of each BOM file's stem.

Files:

| file | module | contents |
|---|---|---|
| `optional.dfy` | `Optional` | `Option` |
| `blf_model.dfy` | `BlfModel` | samples, intervals, thresholds, ordering predicates |
| `blf_normalise.dfy` | `BlfNormalise` | re-basing, the terminal row, `read_and_filter` |
| `blf_collapse.dfy` | `BlfCollapse` | `add_time_columns` as a loop, and its reference definition `Runs` |
| `blf_gaps.dfy` | `BlfGaps` | `add_off_time_periods` as a loop, and its reference definition `Gaps` |
| `blf_cycles.dfy` | `BlfCycles` | `add_cycle_count` as a loop, its reference `Stamped`, the batch offset |
| `blf_summary.dfy` | `BlfSummary` | the per-log pipeline, the loop over logs, the label map |
| `bom_order.dfy` | `BomOrder` | Python's string order and sorting a key set by it |
| `bom_delta.dfy` | `BomDelta` | `merge_and_filter_dataframes` |
| `bom_name.dfy` | `BomReportName` | `get_output_file_name` and a parser that inverts it |

Modelling choices:
- **Time.** Times are integer microseconds. The code's times carry six decimals of a second (`:.6f`, BLFSummary.py:126-129). The 2 s threshold becomes `2_000_000` and the 800 s threshold becomes `800_000_000`. Both comparisons stay strict.
- **NaN and 'Null' states.** The NaN state of the terminal row is `Absent`. An off-time row's `'Null'` is `GapNull`. In pandas `NaN == NaN` is false, so `SameState` never holds for `Absent`, and an absent-state row is never merged with a neighbour. A pandas NaN or empty BOM cell is `None`.
- **Loops in the source.** `add_time_columns`, `add_off_time_periods`, `add_cycle_count` and the loop over logs in `main` are methods with `while`/`for` loops over the table. Each is proved equal to a reference function. The properties are proved about those functions.
- **Pure table operations.** The pandas operations of `merge_and_filter_dataframes` (merge, masks, `sort_index`) are functions over maps. `get_output_file_name` is a pure function over strings.

Behaviour the model takes from the code as written:
- **End Time of a run.** `add_time_columns` sets it to the Start Time of the run's last sample (BLFSummary.py:41), so an interval ends where its last sample starts, not where the next run begins. A run of one sample keeps End = Start and duration 0. Intervals therefore do not cover the whole log. Neighbours can be up to 2 s apart with nothing between them. `BlfGaps.Abutting` and `BlfSummary.LogShape` state what holds instead.
- **No input errors.** The code raises no error for an empty log or an inverted start/stop pair. An empty log yields just the terminal row. Sortedness and bracketing of the input are the hypotheses of the ordering lemmas (`BlfSummary.LogShape`), not errors.
- **The cycle threshold is 800 s** (BLFSummary.py:69), the value the comparison uses. The comments at lines 66 and 140 speak of 890 s.

## Model

| member | source | states |
|---|---|---|
| BlfNormalise.Normalise | BLFSummary.py:126-129 | One row per decoded row plus one. Each time plus the log start is the bus stamp, and state and voltage are kept. The last row is at `stop - start` with NaN state and voltage. No row carries the off-time `'Null'`, which only line 58 writes. |
| BlfNormalise.NormaliseOrdered | BLFSummary.py:126-129 | Suppose the stamps are ordered and lie within the log's start/stop. Then the normalised times are non-decreasing and lie within `[0, stop - start]`. |
| BlfNormalise.ReadAndFilter | BLFSummary.py:13-27 | Every row comes back unchanged and in order: the filters on lines 22-24 are overwritten at line 25. |
| BlfCollapse.AddTimeColumns | BLFSummary.py:29-49 | The in-place merge loop returns exactly `Runs(samples)`: one interval per maximal run of equal states. It starts at the run's first sample and ends at the run's last sample. |
| BlfCollapse.RunEnd | BLFSummary.py:38-40 | The inner scan stops at the first row whose state differs from row i, or at the end of the table. All rows in between share row i's state. |
| BlfCollapse.CollapseRemovesRepeats | BLFSummary.py:34-46 | The interval states are the sample states with consecutive repeats removed. No two neighbouring intervals share a state. The table never grows, and it is empty only for an empty input. |
| BlfCollapse.RunsAreBlocks | BLFSummary.py:34-46 | Take any boundaries b that cut the samples into maximal runs: the rows of a block share its first row's state, and the row after the block does not. Then there is one interval per block. Interval k starts at block k's first sample and keeps that sample's state and voltage. It ends at the Start Time of the block's last sample, with Duration the difference. |
| BlfCollapse.RunsPartition | BLFSummary.py:34-46 | Every table has such boundaries, starting at row 0 and ending at its length, so every collapsed table is made of its maximal runs in this way. |
| BlfCollapse.CollapseExample | BLFSummary.py:34-46 | Rows at 0 s, 1 s (state 1), 2 s, 3 s, 3 s (state 3) and the NaN row at 5 s give state 1 from 0 s to 1 s with the first row's voltage, state 3 from 2 s to 3 s, and the NaN row at 5 s. |
| BlfCollapse.CollapseKeepsSignalStates | BLFSummary.py:34-46 | Samples without `'Null'` collapse to intervals without `'Null'`. |
| BlfCollapse.AbsentNeverMerged | BLFSummary.py:35 | Because NaN never equals NaN, every absent-state sample stays its own zero-length interval. A final absent sample stays the last row unchanged. |
| BlfCollapse.CollapseOrdered | BLFSummary.py:36-44 | Suppose the times are sorted and the input is non-empty. Then the intervals are well formed (duration = end - start >= 0) and ordered. The first starts at the first sample and the last ends at the last sample. |
| BlfGaps.AddOffTimePeriods | BLFSummary.py:51-63 | The loop that grows the table and steps past each inserted row returns exactly `Gaps(rows)`. |
| BlfGaps.GapsAbut | BLFSummary.py:53-62 | After insertion, no two neighbouring rows are more than 2 s apart. |
| BlfGaps.GapsIdempotent | BLFSummary.py:51-63 | Running the insertion a second time changes nothing. |
| BlfGaps.GapsKeepOriginals | BLFSummary.py:58-60 | Removing the `'Null'` rows gives back the input table, in its order. |
| BlfGaps.GapsCount | BLFSummary.py:53-62 | One row is added per neighbouring pair more than 2 s apart, and at most one per pair. |
| BlfGaps.GapRowShape | BLFSummary.py:54-58 | Each `'Null'` row sits between two original rows. It starts at the first one's end and ends at the second one's start. It lasts more than 2 s and has a `'Null'` voltage. |
| BlfGaps.GapsOrdered | BLFSummary.py:55-60 | Insertion keeps a well-formed, ordered table well formed and ordered. |
| BlfGaps.GapsEnds | BLFSummary.py:51-63 | Insertion keeps the first and the last row. |
| BlfGaps.GapsStartSorted | BLFSummary.py:59 | On an ordered table the inserted rows sit in Start Time order, so the re-sort after each insertion finds every row in place. |
| BlfGaps.GapThresholdExamples | BLFSummary.py:54 | Rows exactly 2 s apart get no off-time row. Rows 3.5 s apart get one of 3.5 s. |
| BlfCycles.AddCycleCount | BLFSummary.py:65-72 | The counter loop returns `Stamped(rows)`: every row, unchanged, with the number of qualifying rows up to and including it. |
| BlfCycles.StampedSteps | BLFSummary.py:67-71 | The count starts at the first row's own contribution. It rises by exactly 1 at a state-5 row lasting more than 800 s and stays the same at every other row. |
| BlfCycles.StampedMonotone | BLFSummary.py:67-71 | The counts never decrease. The last one is the log's number of qualifying rows, at most the row count. |
| BlfCycles.GapsKeepCycleTotal | BLFSummary.py:69 | `'Null'` rows never qualify, so off-time insertion leaves the cycle total unchanged. |
| BlfCycles.Shift | BLFSummary.py:143 | Every count is raised by the running total of the earlier logs, and the other columns are kept. |
| BlfCycles.MaxCycle | BLFSummary.py:144 | The result bounds every count and is one of them. |
| BlfCycles.NextOffset | BLFSummary.py:143-144 | The maximum of the shifted column is the previous total plus this log's qualifying rows. |
| BlfCycles.BatchContinuity | BLFSummary.py:141-144 | Counting two tables one after the other, with the offset carried between them, equals counting their concatenation. Numbers never restart. |
| BlfCycles.CycleExample | BLFSummary.py:69 | State-5 rows of 900 s, 500 s and 850 s are stamped 1, 1, 2. |
| BlfSummary.Intervals | BLFSummary.py:126-135 | Every log yields at least one interval, whatever its rows. The zero-length NaN terminal row at `stop - start` is always the last one, and no two neighbours are more than 2 s apart. |
| BlfSummary.IntervalsOriginals | BLFSummary.py:51-63 | A log's `'Null'` rows are exactly its off-time rows. Dropping them gives back the collapsed runs. Each one lies strictly inside the table, between two decoded intervals, spans the gap between them and lasts more than 2 s. |
| BlfSummary.SummariseLog | BLFSummary.py:110-144 | One log's summary is its stamped intervals shifted by the previous total. The next total is the previous total plus the log's qualifying rows. |
| BlfSummary.SummariseBatch | BLFSummary.py:99-144 | The total starts at 0. Log f is shifted by the qualifying rows of logs 0..f-1. The concatenated summaries equal the counts of all intervals taken as one table, and the final total is their number. |
| BlfSummary.LogShape | BLFSummary.py:126-135 | Take a log with ordered stamps inside its start/stop. Its summary is non-empty, well formed, ordered, and has no neighbours more than 2 s apart. It starts at the first decoded row and ends with the zero-length NaN terminal row at `stop - start`. |
| BlfSummary.Label | BLFSummary.py:147-149 | A state gets a label exactly when it is a code from 0 to 15. NaN, `'Null'` and other codes become NaN. |
| BlfSummary.LabelsDistinct | BLFSummary.py:147-149 | No two states share a label. |
| BomOrder.SortedKeys | ECUBOMDelta.py:169 | The keys in strictly ascending Python string order: the same elements, each once. |
| BomDelta.OuterJoin | ECUBOMDelta.py:154 | The merged keys are the union of both BOMs' RefDes. Every merged row has at least one side. |
| BomDelta.JoinRoundTrip | ECUBOMDelta.py:154 | Each side of the merged table is exactly its input BOM. |
| BomDelta.IsZero | ECUBOMDelta.py:157 | `== 0` holds exactly for a numeric cell equal to zero. An empty (NaN) cell or a text cell is never zero. |
| BomDelta.Matches | ECUBOMDelta.py:156-167 | The three quantity masks select only rows with a zero quantity. The both-zero mask needs both sides. The new-part mask needs the second side and no first quantity, and the deprecated-part mask the reverse. The unchanged mask selects every row whose two sides are the same line. |
| BomDelta.Filled | ECUBOMDelta.py:166-167 | A side gives ten cells after `fillna('')`. A missing side gives ten empty strings. |
| BomDelta.Drop | ECUBOMDelta.py:156-167 | `df[~mask]` keeps exactly the rows the mask does not select, unchanged. |
| BomDelta.DropCommutes | ECUBOMDelta.py:156-167 | Two filters give the same rows in either order, and filters only remove rows. |
| BomDelta.DropIf | ECUBOMDelta.py:156-167 | A filter step removes rows only when its box is checked. |
| BomDelta.ApplyFilters | ECUBOMDelta.py:156-167 | A row is kept exactly when no enabled filter selects it, and kept rows are unchanged. |
| BomDelta.SortByRefDes | ECUBOMDelta.py:169 | Every row of the map appears once, in strictly ascending RefDes order. |
| BomDelta.MergeAndFilter | ECUBOMDelta.py:152-169 | The report has at most one row per RefDes of either BOM, and no RefDes appears twice. |
| BomDelta.MergeAndFilterSorted | ECUBOMDelta.py:152-169 | The report's RefDes are strictly ascending. |
| BomDelta.MergeAndFilterSound | ECUBOMDelta.py:152-169 | Every report row is a RefDes of either BOM with the unaltered lines of both BOMs, and no enabled filter selects it. |
| BomDelta.MergeAndFilterComplete | ECUBOMDelta.py:152-169 | Every RefDes of either BOM whose merged row no enabled filter selects is in the report. |
| BomDelta.NoFiltersKeepsAll | ECUBOMDelta.py:152-169 | With all boxes cleared, the report has one row per RefDes of either BOM. |
| BomReportName.AfterLast | ECUBOMDelta.py:142-143 | `split(c)[-1]` is a suffix without `c`, preceded by `c` unless it is the whole string. |
| BomReportName.BeforeFirst | ECUBOMDelta.py:142-143 | `split(c)[0]` is a prefix without `c`, followed by `c` unless it is the whole string. |
| BomReportName.BomTag | ECUBOMDelta.py:142-143 | A BOM's tag holds no `/`, `.` or `_`. |
| BomReportName.ReportName | ECUBOMDelta.py:144 | The name is `Result/BOM_Differences_` followed by the two tags around `_vs_` and ends in `.xlsx`. |
| BomReportName.ParseOutputName | ECUBOMDelta.py:144 | Reading a report name back gives a first tag without `_`. |
| BomReportName.ReportNameRoundTrip | ECUBOMDelta.py:144 | Parsing the name built from tags a and b, with no `_` in a, gives back a and b. |
| BomReportName.OutputFileName | ECUBOMDelta.py:140-144 | The report name of two files parses back to their two tags. |
| BomReportName.ReportNameInOutputDir | ECUBOMDelta.py:144 | With no `/` in either tag, the name is `Result/` followed by a name with no `/`. |
| BomReportName.OutputNameShape | ECUBOMDelta.py:140-144 | Equal report names imply equal tags. Every report lies directly inside `Result`. |

## Left out

- `PDFHighlight.py` is not part of this model.
- BLF decoding, the DBC database and the listing of `.blf` files (BLFSummary.py:96-123) are input. The model starts from decoded rows and the log's start/stop stamps, given as parameters.
- `save_picture`, `save_to_excel`, printing, the overwrite prompt, and the Excel/text output and styling of `ECUBOMDelta.py` are file and terminal I/O.
- The GUI (`BOMComparisonApp`, file dialogs, message boxes) is left out. The check boxes are a `Checkboxes` parameter.
- `read_excel_files` is left out. Its `skiprows`/`skipfooter` parsing is spreadsheet I/O, and a BOM is given as a map.
- Floating point is not modelled. Times are exact integer microseconds. The `:.6f` rounding of BLFSummary.py:126-129 and the float comparisons are not modelled.
- BlfGaps.AddOffTimePeriods: inserts the off-time row directly after row i. On rows not sorted by Start Time, the source re-sorts the whole table at its first insertion (BLFSummary.py:59), but the model keeps the input order. On ordered rows `sort_values` leaves the table as the model has it whenever Start Times do not tie (`BlfGaps.GapsStartSorted`). The default sort is not stable, so the order under ties is not modelled.
- BlfSummary.SummariseLog: follows `BlfGaps.AddOffTimePeriods`. On rows not sorted by Start Time, the source re-sorts the whole table at its first insertion, but the model keeps input order. A log with a stamp outside its start/stop bracket reaches this case, because its terminal row is then not last in time. Ties are not modelled either.
- BlfSummary.SummariseBatch: inherits the same gap from `BlfSummary.SummariseLog`. On rows not sorted by Start Time, the source re-sorts the whole table at its first insertion, but the model keeps input order, and ties are not modelled.
- The column reorder of BLFSummary.py:138 is not modelled. It changes only column order.
- BlfCycles.MaxCycle: requires a non-empty table. In the source an empty column would give NaN and `int()` would fail, but every log yields at least one row (the contract of `BlfSummary.Intervals`).
- BomDelta.SortByRefDes: is a ghost function. It is defined by choosing least keys, not by pandas' sort algorithm. RefDes are unique map keys, so order ties and duplicate or NaN RefDes are not modelled.
- BomDelta.IsZero: compares only numeric cells with zero. A text cell never equals 0, as in pandas. Numbers are `real`, so float rounding is not modelled.
- BomReportName.BaseName: uses `/` as the only separator (POSIX `os.path`). The Windows `\` separator, drive letters, and the `\` that `os.path.join` uses on Windows are not modelled.
