# Device profiler post-processing, modelled in Dafny

This project models the trace-analysis core of the Tenstorrent device
profiler and two small pieces of the low-level runtime.

The profiler part is `tt_metal/tools/profiler/process_device_log.py`. It:

- reads the device-side log of timer markers;
- groups the markers by chip, core and RISC;
- sorts every series and anchors it at a device-wide minimum timestamp;
- builds two merged views: a per-core `TENSIX` view and a per-device
  `DEVICE` view;
- matches start/end marker specs into durations, in paired or
  `first_last` mode;
- computes the per-series statistics and the device-level roll-up;
- turns consecutive markers into typed durations;
- aligns the duration order lists of several cores into timeline columns;
- renders the per-timer cells of the report.

The runtime part is `tt_metal/llrt/llrt.cpp`. It covers the circular-buffer
configuration vector and the `jal` word that sends BRISC to its firmware.

Modules, in dependency order:

- `Wrappers`: `Option` and `Result`.
- `Profile`: the nested `chip -> core -> risc` data.
  - Python dictionaries are ordered sequences of records with unique keys.
  - A lookup takes the first entry with the requested key.
- `StableSort`: `list.sort(key=ts)`, an insertion sort that keeps ties in
  order.
- `Ingest`: the grouping loop of `import_device_profile_log`.
- `Anchor`: the global minimum and the anchor event.
- `Views`: `risc_to_core_timeseries` and `core_to_device_timeseries`.
- `Matching`: `translate_metaData` and `determine_conditions`.
- `Intervals`: the two scans of `timeseries_analysis`.
- `Stats`: its statistics and the roll-up of `generate_device_level_summary`.
- `Scopes`: `risc_analysis`, `core_analysis`, `device_analysis` and the
  device-level summary.
- `Durations`: `timeseries_to_durations`.
- `Alignment`: `plotData_to_timelineXVals`.
- `Report`: `coreCompare` and `return_available_timer`.
- `CircularBuffers` and `BriscJump`: the two runtime functions.

Behaviours of the code worth knowing:

- Paired mode tests for an end before it tests for a new start. An event
  that matches both closes the open start and does not re-open it
  (`Intervals.EndTestedBeforeReopen`).
- `first_last` mode does not check that the last end comes after the first
  start. It can record a negative duration
  (`Intervals.FirstLastEndBeforeStart`).
- The backward scan in `first_last` mode stops before index 0
  (`Intervals.FirstLastSkipsIndexZero`).
- After a column is emitted, the aligner removes only that column's label
  from the discard set. It does not clear the whole set.
- The `DEVICE` entry is the string key `"DEVICE"` and never equals a
  coordinate. `CoreKey` keeps the two apart by type.
- A row that does not parse aborts the whole import (`MalformedLog`).
- The views tag events only as `()`, `(risc,)`, `(core,)` or `(risc, core)`
  (`Matching.ViewsBuildShapedTags`). These are the lists that
  `translate_metaData` unpacks into a risc and a core.

## Model

| member | source | states |
|---|---|---|
| Ingest.Parse | tt_metal/tools/profiler/process_device_log.py:249-255 | the rows exist exactly when every line parses, and then they are the lines' values in file order |
| Ingest.ImportLog | tt_metal/tools/profiler/process_device_log.py:245-255 | the import succeeds exactly when every line after the two header lines parses; one bad line fails it |
| Ingest.AddToRiscsShape | tt_metal/tools/profiler/process_device_log.py:259-266 | a row for a known risc extends that risc's series in place; a new risc is appended last, as dict insertion does |
| Ingest.AddToCoresShape | tt_metal/tools/profiler/process_device_log.py:258-270 | a row for a known core updates that core in place; a new core is appended last with a one-event risc |
| Ingest.AddToChipsShape | tt_metal/tools/profiler/process_device_log.py:257-274 | a row for a known chip updates that chip in place; a new chip is appended last |
| Ingest.AddRowSeries | tt_metal/tools/profiler/process_device_log.py:257-274 | adding a row extends the series of its own (chip, core, risc) by its event and changes no other series |
| Ingest.GroupSeries | tt_metal/tools/profiler/process_device_log.py:249-274 | after grouping, the series of any (chip, core, risc) holds exactly the events of that triple's rows, in file order |
| Ingest.AddToChipsRaw | tt_metal/tools/profiler/process_device_log.py:257-274 | one row keeps chip ids, core keys and risc names unique per level, and leaves no series empty and no event tagged |
| Ingest.GroupRaw | tt_metal/tools/profiler/process_device_log.py:249-274 | the grouped log has unique keys at every level, no empty series, untagged events and no analyses |
| Ingest.GroupedSeries | tt_metal/tools/profiler/process_device_log.py:257-274 | every stored series is non-empty and is the event list of the rows naming its chip, core and risc |
| StableSort.Insert | tt_metal/tools/profiler/process_device_log.py:283 | inserting adds exactly one element: the result is the input plus `x` as a multiset |
| StableSort.SortByTs | tt_metal/tools/profiler/process_device_log.py:283 | sorting is a permutation of its input |
| StableSort.SortByTsSorted | tt_metal/tools/profiler/process_device_log.py:283 | the sorted series is non-decreasing in timestamp |
| StableSort.FilterInsert | tt_metal/tools/profiler/process_device_log.py:283 | into a sorted series, filtering after inserting equals inserting into the filtered series |
| StableSort.FilterSort | tt_metal/tools/profiler/process_device_log.py:283 | stability: for every predicate, filtering the sorted series gives the sorted filtered series |
| StableSort.SortStable | tt_metal/tools/profiler/process_device_log.py:283 | events with equal timestamps keep their original relative order |
| StableSort.SortSorted | tt_metal/tools/profiler/process_device_log.py:283 | sorting an already sorted series leaves it unchanged |
| StableSort.SortedHeadIsMin | tt_metal/tools/profiler/process_device_log.py:283-284 | the first event after sorting is an input event with the smallest timestamp |
| Anchor.RunMin | tt_metal/tools/profiler/process_device_log.py:285-288 | the running minimum never rises above its starting value |
| Anchor.RunMinIsMin | tt_metal/tools/profiler/process_device_log.py:280-288 | the running minimum is at most every candidate's first timestamp |
| Anchor.RunMinFirstHolder | tt_metal/tools/profiler/process_device_log.py:285-288 | the result is the starting value, or a strictly smaller candidate that no earlier candidate ties (strict `>` keeps the first holder) |
| Anchor.RunMinConcat | tt_metal/tools/profiler/process_device_log.py:277-289 | the minimum over two runs of candidates is the second run started from the first run's minimum, so it carries across chips |
| Anchor.AnchorChips | tt_metal/tools/profiler/process_device_log.py:289-295 | each device keeps its chip id, and each of its series is anchored at that device's own recorded minimum |
| Anchor.GlobalMinIsRunning | tt_metal/tools/profiler/process_device_log.py:277-289 | chip k's `global_min` is the running minimum over the series of chips 0..k, started from (2^64-1, BRISC, (0,0)) and never reset per chip |
| Anchor.AnchoredSeries | tt_metal/tools/profiler/process_device_log.py:276-297 | each imported series is the original sorted by timestamp with `(0, global_min)` in front, and it is sorted as a whole |
| Views.TagAll | tt_metal/tools/profiler/process_device_log.py:305-306 | tagging keeps length and order and appends the tag to each event's metadata |
| Views.TagAllSorted | tt_metal/tools/profiler/process_device_log.py:305-306 | tagging keeps a sorted series sorted |
| Views.PutRisc | tt_metal/tools/profiler/process_device_log.py:309 | storing under a risc name sets that name's series, leaves every other name's series unchanged and adds only that name |
| Views.PutRiscDistinct | tt_metal/tools/profiler/process_device_log.py:309 | storing the TENSIX entry keeps risc names unique |
| Views.PutRiscFrom | tt_metal/tools/profiler/process_device_log.py:309 | after storing, every risc entry is the stored one or one that was there before |
| Views.MergeLength | tt_metal/tools/profiler/process_device_log.py:303-306 | the merged core series has as many events as all its riscs together |
| Views.FilterTagAll | tt_metal/tools/profiler/process_device_log.py:305-306 | filtering a series tagged `t` by tag `u` keeps all of it when `t == u` and none of it otherwise |
| Views.FilterMerge | tt_metal/tools/profiler/process_device_log.py:303-306 | filtering the merged events by one risc's tag gives exactly that risc's series, tagged |
| Views.FilterMergeAbsent | tt_metal/tools/profiler/process_device_log.py:303-306 | no merged event carries the tag of a risc the core does not have |
| Views.TensixRoundTrip | tt_metal/tools/profiler/process_device_log.py:300-309 | the TENSIX series is sorted, holds every event of the core, and filtering it by a risc's tag gives back that risc's sorted series |
| Views.CoreViewKeepsRiscs | tt_metal/tools/profiler/process_device_log.py:309 | building the TENSIX view changes neither the core key nor any other risc's series |
| Views.CoreViews | tt_metal/tools/profiler/process_device_log.py:302-309 | every core of a device gets its TENSIX view, in order |
| Views.RiscToCore | tt_metal/tools/profiler/process_device_log.py:300-309 | every device gets the TENSIX view of every core |
| Views.TagCore | tt_metal/tools/profiler/process_device_log.py:317-321 | each event is tagged with its core, except marker 0, which is tagged with the `global_min` core |
| Views.AddNamesProps | tt_metal/tools/profiler/process_device_log.py:322-325 | collecting names from one core's riscs gives each name once: those already seen plus that core's riscs |
| Views.NamesFromProps | tt_metal/tools/profiler/process_device_log.py:315-325 | collecting names over the cores gives each name once: those already seen plus every risc of any core |
| Views.DeviceRiscNames | tt_metal/tools/profiler/process_device_log.py:315-327 | the DEVICE entry lists each risc name once, exactly the names present on some core |
| Views.DeviceRiscs | tt_metal/tools/profiler/process_device_log.py:322-328 | each DEVICE risc entry holds, sorted, every core's events for that name, tagged with their core |
| Views.CollectLength | tt_metal/tools/profiler/process_device_log.py:315-325 | a DEVICE risc series has as many events as that risc's series on all cores together |
| Views.CollectMarkerZero | tt_metal/tools/profiler/process_device_log.py:320-321 | every marker-0 event in a DEVICE series carries the `global_min` core |
| Views.FilterTagCore | tt_metal/tools/profiler/process_device_log.py:317-321 | filtering one core's tagged events by "non-zero marker from core k" keeps its non-zero events when it is core k, and none otherwise |
| Views.FilterCollectAbsent | tt_metal/tools/profiler/process_device_log.py:315-325 | no collected non-zero event names a core that the device does not have |
| Views.FilterCollect | tt_metal/tools/profiler/process_device_log.py:315-325 | filtering the collected events by "non-zero marker from core k" gives exactly core k's non-zero events, tagged |
| Views.DeviceSeriesIs | tt_metal/tools/profiler/process_device_log.py:322-330 | the DEVICE entry's series for a risc name present on some core is the sorted collection of that name's events |
| Views.DeviceRoundTrip | tt_metal/tools/profiler/process_device_log.py:312-330 | a DEVICE series is sorted and complete; its marker-0 events name the `global_min` core; filtering by a core recovers that core's events |
| Views.PutCoreFrom | tt_metal/tools/profiler/process_device_log.py:330 | after storing DEVICE, every core is the DEVICE core or one that was there before |
| Views.CoreToDevice | tt_metal/tools/profiler/process_device_log.py:312-330 | every device gets its DEVICE view |
| Matching.MetaOf | tt_metal/tools/profiler/process_device_log.py:524-533 | two tags are (risc, core); one tag is a risc or a core by kind; any other count carries nothing |
| Matching.Translate | tt_metal/tools/profiler/process_device_log.py:523-538 | "ANY" is never overridden, and without event metadata the spec's own core and risc are kept |
| Matching.Conditions | tt_metal/tools/profiler/process_device_log.py:541-560 | current keys carry the event's timer id; desired keys carry the spec's start and end ids |
| Matching.MatchIff | tt_metal/tools/profiler/process_device_log.py:534-560 | current == desired exactly when the ids agree and the event's core and risc are each accepted by the spec |
| Matching.NoCoreRejectsCoreTags | tt_metal/tools/profiler/process_device_log.py:534-535 | a spec without a `core` field never matches an event carrying a core |
| Matching.UntaggedMatchesById | tt_metal/tools/profiler/process_device_log.py:523-560 | an event without metadata matches exactly when its timer id is the spec's |
| Matching.IsStartIff | tt_metal/tools/profiler/process_device_log.py:544-570 | an event opens an interval exactly when it has the start id and passes the start core and risc tests |
| Matching.IsEndIff | tt_metal/tools/profiler/process_device_log.py:548-575 | an event closes an interval exactly when it has the end id and passes the end core and risc tests |
| Matching.MetaOfViewShaped | tt_metal/tools/profiler/process_device_log.py:523-533 | on the tag lists the views build, the risc is the first tag when it names a risc, and the core is the last tag when it names a core |
| Matching.SortKeepsMembers | tt_metal/tools/profiler/process_device_log.py:308 | the timestamp sort of a merged series adds no event |
| Matching.MergeRiscsShaped | tt_metal/tools/profiler/process_device_log.py:302-306 | merging untagged riscs gives every event exactly its own risc tag |
| Matching.CoreViewShaped | tt_metal/tools/profiler/process_device_log.py:300-309 | after the TENSIX view of untagged riscs, every event carries no tag or one risc tag |
| Matching.TagCoreShaped | tt_metal/tools/profiler/process_device_log.py:317-321 | appending a grid core to events with at most a risc tag gives `(core,)` or `(risc, core)` |
| Matching.RiscSeriesShaped | tt_metal/tools/profiler/process_device_log.py:316-317 | the series looked up under a name keeps the shape all the riscs have |
| Matching.CollectShaped | tt_metal/tools/profiler/process_device_log.py:315-325 | every event collected for a DEVICE risc has a view-shaped tag list |
| Matching.DeviceViewShaped | tt_metal/tools/profiler/process_device_log.py:312-330 | after the DEVICE view of grid cores whose events carry at most a risc tag, every event of every core is view-shaped |
| Matching.ViewsBuildShapedTags | tt_metal/tools/profiler/process_device_log.py:300-330 | starting from untagged series on grid cores, the two views leave every event with `()`, `(risc,)`, `(core,)` or `(risc, core)` |
| Intervals.QuietExtend | tt_metal/tools/profiler/process_device_log.py:567-582 | a quiet stretch extends over an index that is neither a start nor an end |
| Intervals.PairedFrom | tt_metal/tools/profiler/process_device_log.py:567-582 | every record of a scan from `k` ends at an index between `k` and the series end |
| Intervals.PairedFromCloses | tt_metal/tools/profiler/process_device_log.py:567-582 | every record starts at a start, ends at an end, and has no start or end in between |
| Intervals.PairedFromOrdered | tt_metal/tools/profiler/process_device_log.py:567-582 | records come out in scan order and never overlap |
| Intervals.ConsInScanOrder | tt_metal/tools/profiler/process_device_log.py:577-580 | a record ending before the next one starts keeps the list in scan order |
| Intervals.PairedFromComplete | tt_metal/tools/profiler/process_device_log.py:567-582 | an end preceded by a start, with no end in between, is always recorded |
| Intervals.PairedEndsSound | tt_metal/tools/profiler/process_device_log.py:567-582 | each recorded end is an end with an earlier start and no end in between |
| Intervals.PairedEndsComplete | tt_metal/tools/profiler/process_device_log.py:567-582 | each end with an earlier start and no end in between is recorded |
| Intervals.PairedEndsIff | tt_metal/tools/profiler/process_device_log.py:567-582 | when no event is both a start and an end: an index is a recorded end exactly when it is an end with an open start before it |
| Intervals.FirstStart | tt_metal/tools/profiler/process_device_log.py:567-573 | the forward scan of `first_last` stops at the first start, or reports that there is none |
| Intervals.LastEnd | tt_metal/tools/profiler/process_device_log.py:584-594 | the backward scan finds the last end at index 1 or later, or reports that there is none |
| Intervals.FirstLastScan | tt_metal/tools/profiler/process_device_log.py:567-594 | at most one record; exactly one when some start and some end at index >= 1 exist; it pairs the first start with the last end |
| Intervals.PairsInRange | tt_metal/tools/profiler/process_device_log.py:563-594 | every record of either mode indexes inside the series |
| Intervals.RecordOf | tt_metal/tools/profiler/process_device_log.py:577-579 | a record holds the start and end timestamps and ids, with diff = end - start |
| Intervals.RecordsOf | tt_metal/tools/profiler/process_device_log.py:577-579 | one record per matched pair, in pair order |
| Intervals.Analyze | tt_metal/tools/profiler/process_device_log.py:563-594 | `first_last` yields at most one record |
| Intervals.PairedDiffsNonNegative | tt_metal/tools/profiler/process_device_log.py:575-579 | on a sorted series, every paired-mode duration is non-negative |
| Intervals.ReopenedStartDropsEarlier | tt_metal/tools/profiler/process_device_log.py:581-582 | a second start before any end replaces the first; only the later start is paired |
| Intervals.EndTestedBeforeReopen | tt_metal/tools/profiler/process_device_log.py:574-582 | with start id = end id, the second event closes the first instead of re-opening |
| Intervals.FirstLastEndBeforeStart | tt_metal/tools/profiler/process_device_log.py:584-594 | `first_last` can pair an end that precedes the start, giving a negative diff |
| Intervals.FirstLastSkipsIndexZero | tt_metal/tools/profiler/process_device_log.py:585 | the backward scan never looks at index 0, so a lone first event cannot close itself |
| Stats.Diffs | tt_metal/tools/profiler/process_device_log.py:596 | the diff column, record by record |
| Stats.MaxOf | tt_metal/tools/profiler/process_device_log.py:604 | Max is one of the values and at least all of them |
| Stats.MinOf | tt_metal/tools/profiler/process_device_log.py:605 | Min is one of the values and at most all of them |
| Stats.Mean | tt_metal/tools/profiler/process_device_log.py:603 | the mean times the count is the sum |
| Stats.SumConcat | tt_metal/tools/profiler/process_device_log.py:608 | the sum of a concatenation is the sum of the parts |
| Stats.InsertReal | tt_metal/tools/profiler/process_device_log.py:607 | inserting into the median's sorted list adds exactly that value |
| Stats.SortReals | tt_metal/tools/profiler/process_device_log.py:607 | the median's sort is a permutation |
| Stats.InsertRealSorted | tt_metal/tools/profiler/process_device_log.py:607 | inserting into a sorted list keeps it sorted |
| Stats.SortRealsSorted | tt_metal/tools/profiler/process_device_log.py:607 | the median's sort is sorted |
| Stats.Reals | tt_metal/tools/profiler/process_device_log.py:607 | the values as reals, one by one |
| Stats.Median | tt_metal/tools/profiler/process_device_log.py:607 | the median has an input value at or below it and one at or above it |
| Stats.MedianBounds | tt_metal/tools/profiler/process_device_log.py:604-607 | the median lies between Min and Max |
| Stats.StatsOf | tt_metal/tools/profiler/process_device_log.py:598-610 | Count, Sum and First are the list's; Average = Sum / Count; Max and Min are attained extremes; Range = Max - Min; Median lies within them |
| Stats.Summarize | tt_metal/tools/profiler/process_device_log.py:596-611 | no stats exactly when there are no records; otherwise the stats of the diffs, with First the first-emitted record's diff |
| Stats.FirstIsNotMin | tt_metal/tools/profiler/process_device_log.py:609 | First is the first record's diff even when it is not the Min |
| Stats.Maxes | tt_metal/tools/profiler/process_device_log.py:669 | the Max column of the stat list |
| Stats.Mins | tt_metal/tools/profiler/process_device_log.py:670 | the Min column of the stat list |
| Stats.Medians | tt_metal/tools/profiler/process_device_log.py:672 | the Median column of the stat list |
| Stats.CountsPositive | tt_metal/tools/profiler/process_device_log.py:667-668 | the roll-up count is positive when every entry's is |
| Stats.RollUp | tt_metal/tools/profiler/process_device_log.py:660-674 | Count is the total count; Average is total Sum over total Count; Range = Max - Min; Median is the median of the per-series medians, so it lies between two of them |
| Stats.RollUpExtremes | tt_metal/tools/profiler/process_device_log.py:669-671 | the roll-up Max and Min are attained per-series Max and Min, and bound all of them |
| Stats.RollUpWeightsByCount | tt_metal/tools/profiler/process_device_log.py:668 | the roll-up Average is weighted by count, not the mean of the averages |
| Stats.Summaries | tt_metal/tools/profiler/process_device_log.py:596-611 | the per-series stats, series by series |
| Stats.DiffsConcat | tt_metal/tools/profiler/process_device_log.py:596 | the diffs of concatenated records are the concatenated diffs |
| Stats.SummariesAddUp | tt_metal/tools/profiler/process_device_log.py:667-668 | the per-series Counts and Sums add up to the count and the sum of all records together |
| Stats.RollUpIsPooledMean | tt_metal/tools/profiler/process_device_log.py:660-668 | the roll-up Count and Average equal the count and mean of all the series' records pooled |
| Scopes.AnalyzeSeries | tt_metal/tools/profiler/process_device_log.py:563-616 | the entry under `name` is set exactly when a record was found; series, risc and other names are untouched; no record means no change |
| Scopes.AnalyzeRiscs | tt_metal/tools/profiler/process_device_log.py:623-625 | only the risc entries named `target` are analysed |
| Scopes.AnalyzeCores | tt_metal/tools/profiler/process_device_log.py:619-635 | every core but DEVICE has its target risc analysed; DEVICE is left alone |
| Scopes.AnalyzeDeviceCore | tt_metal/tools/profiler/process_device_log.py:638-645 | only the TENSIX entry of the DEVICE core is analysed |
| Scopes.MapCores | tt_metal/tools/profiler/process_device_log.py:619-645 | every device gets the scope's analysis, in order |
| Scopes.RunAnalysis | tt_metal/tools/profiler/process_device_log.py:619-645 | an analysis run keeps every device |
| Scopes.RunAnalysisEffect | tt_metal/tools/profiler/process_device_log.py:619-645 | ids, minima, cores, keys and summaries stay in place; exactly the risc entries the scope targets are analysed |
| Scopes.AnalyzeSeriesCounted | tt_metal/tools/profiler/process_device_log.py:598-616 | analysing a risc keeps each stored entry backed by at least one record |
| Scopes.RunAnalysisCounted | tt_metal/tools/profiler/process_device_log.py:598-645 | every stored entry has Count > 0 before a run, and still has after it |
| Scopes.StatsList | tt_metal/tools/profiler/process_device_log.py:656-658 | the `statList` of a name, entry by entry |
| Scopes.RiscEntriesFrom | tt_metal/tools/profiler/process_device_log.py:652-658 | every listed entry is the entry of that name on some risc |
| Scopes.CoreEntriesFrom | tt_metal/tools/profiler/process_device_log.py:651-658 | every listed entry is the entry of that name on some risc of some core |
| Scopes.RiscEntriesNonEmpty | tt_metal/tools/profiler/process_device_log.py:653-658 | a name on any risc of a core puts at least one entry in its list |
| Scopes.CoreEntriesNonEmpty | tt_metal/tools/profiler/process_device_log.py:651-658 | a name on any risc of any core puts at least one entry in its list |
| Scopes.SummaryEntry | tt_metal/tools/profiler/process_device_log.py:650-674 | a name's roll-up takes its first entry's spec and is the roll-up of every entry's stats: Count totals, Average weighted by count, Min and Max bounding every entry's |
| Scopes.SummaryEntryStats | tt_metal/tools/profiler/process_device_log.py:669-672 | the roll-up's Max and Min are some entry's Max and Min; Range = Max - Min; Median is the median of the entries' medians |
| Scopes.PutSummary | tt_metal/tools/profiler/process_device_log.py:675-678 | only the DEVICE core gains the roll-ups, one per name, over its earlier summary; keys and riscs are unchanged |
| Scopes.DeviceSummary | tt_metal/tools/profiler/process_device_log.py:648-678 | the summary keeps the device id, minimum and number of cores |
| Scopes.DeviceSummaryEffect | tt_metal/tools/profiler/process_device_log.py:648-678 | DEVICE holds a roll-up for exactly the names found plus its earlier entries, and no risc changes |
| Scopes.DeviceSummaries | tt_metal/tools/profiler/process_device_log.py:648-649 | each device is summarised on its own |
| Durations.DurAt | tt_metal/tools/profiler/process_device_log.py:339-349 | a pair's duration is (start ts, end ts, end - start) of consecutive events |
| Durations.DurationsUpTo | tt_metal/tools/profiler/process_device_log.py:338-354 | after `n` pairs the order list has `n` entries |
| Durations.DursOfStep | tt_metal/tools/profiler/process_device_log.py:348-351 | the reference list of a type grows by a pair's duration exactly when the pair has that type |
| Durations.DurationsUpToData | tt_metal/tools/profiler/process_device_log.py:347-351 | `data` has a type exactly when some pair has it, and `data[t]` lists the durations of type `t` in pair order |
| Durations.DurationsUpToOrder | tt_metal/tools/profiler/process_device_log.py:352-354 | `order[i]` is pair i's type with the number of earlier pairs of that type |
| Durations.Durations | tt_metal/tools/profiler/process_device_log.py:336-338 | a series of `n` events gives `n - 1` order entries, and none when empty |
| Durations.DursOfPrefix | tt_metal/tools/profiler/process_device_log.py:348-351 | a type's durations over fewer pairs are a prefix of those over more |
| Durations.DursOfAt | tt_metal/tools/profiler/process_device_log.py:348-354 | a pair's duration sits at its occurrence index in every later list of its type |
| Durations.OrderLooksUpOwnPair | tt_metal/tools/profiler/process_device_log.py:348-354 | every order entry names a stored duration, and that duration is its own pair's |
| Durations.OrderLabelsDistinct | tt_metal/tools/profiler/process_device_log.py:352-354 | no label appears twice in an order list |
| Durations.DurationsExample | tt_metal/tools/profiler/process_device_log.py:338-354 | occurrences count from 0 per type |
| Alignment.ProjectionSnoc | tt_metal/tools/profiler/process_device_log.py:407 | a new column extends a core's projection exactly when the core takes part in it |
| Alignment.Advance | tt_metal/tools/profiler/process_device_log.py:408-410 | exactly the participating cores' cursors move one step |
| Alignment.RemainingShrinks | tt_metal/tools/profiler/process_device_log.py:408-410 | moving any cursor forward lowers the count of pending entries |
| Alignment.RemainingNoGrow | tt_metal/tools/profiler/process_device_log.py:408-410 | cursors that never move back never raise the count of pending entries |
| Alignment.HeadsPending | tt_metal/tools/profiler/process_device_log.py:372-381 | a candidate whose cores are at that label has a pending entry |
| Alignment.EmitStep | tt_metal/tools/profiler/process_device_log.py:404-411 | emitting a candidate keeps cursors valid, extends every participant's projection by its head, and lowers the pending count |
| Alignment.DiscardShrinks | tt_metal/tools/profiler/process_device_log.py:389-393 | discarding a fresh label shrinks the set of labels still available |
| Alignment.Pass | tt_metal/tools/profiler/process_device_log.py:368-402 | a pass proposes, extends or replaces the candidate at core heads; a replacement discards the old label once; a clean pass keeps the candidate |
| Alignment.Align | tt_metal/tools/profiler/process_device_log.py:362-411 | the loop ends; columns are non-empty; each core's own order list is exactly its projection on the columns |
| Alignment.OrdersOf | tt_metal/tools/profiler/process_device_log.py:362-373 | the order list of each plotted core for the risc, empty when it lacks the risc |
| Alignment.XValsRow | tt_metal/tools/profiler/process_device_log.py:415-422 | one value per plotted core: 0 for non-participants, the looked-up duration for participants |
| Alignment.ProjectionPrefix | tt_metal/tools/profiler/process_device_log.py:407 | the projection of the first n columns is a prefix of the whole projection |
| Alignment.ColumnValueIsPairDuration | tt_metal/tools/profiler/process_device_log.py:413-421 | a participant's value in column n is the duration of its own m-th pair, m being its earlier columns |
| Alignment.AlignedResolvable | tt_metal/tools/profiler/process_device_log.py:418-421 | the `data[type][k]` lookup of every participant succeeds |
| Alignment.AlignRisc | tt_metal/tools/profiler/process_device_log.py:362-423 | the risc's columns are order-preserving, and each row is a column label with its aligned values |
| Alignment.Rows | tt_metal/tools/profiler/process_device_log.py:413-423 | one row per column, with its label and its values |
| Alignment.TimelineXVals | tt_metal/tools/profiler/process_device_log.py:357-424 | for every plotted risc: order-preserving columns and their value rows |
| Report.CoreCompare | tt_metal/tools/profiler/process_device_log.py:21-26 | DEVICE maps to 2^64-1; a grid core's key gives back x as key % 100 and y as key / 100 |
| Report.CoreOrderIsRowMajor | tt_metal/tools/profiler/process_device_log.py:21-26 | on the grid, sorting by the key is row-major: by y, then by x |
| Report.CoreKeyInjective | tt_metal/tools/profiler/process_device_log.py:24-26 | distinct grid cores get distinct keys |
| Report.DeviceCoreSortsLast | tt_metal/tools/profiler/process_device_log.py:22-23 | DEVICE sorts after every grid core whose key is below 2^64-1 |
| Report.KeysCollideOutsideGrid | tt_metal/tools/profiler/process_device_log.py:26 | for x >= 100 keys collide: (100, 0) and (0, 1) tie |
| Report.DigitChar | tt_metal/tools/profiler/process_device_log.py:67-69 | a digit's character reads back as that digit |
| Report.NatToString | tt_metal/tools/profiler/process_device_log.py:67-69 | a natural number renders as digits only |
| Report.IntToString | tt_metal/tools/profiler/process_device_log.py:67-69 | `f"{timestamp}"` is non-empty, has no space, and starts with '-' exactly for negatives |
| Report.NatRoundTrip | tt_metal/tools/profiler/process_device_log.py:67-69 | rendered digits parse back to the number |
| Report.IntRoundTrip | tt_metal/tools/profiler/process_device_log.py:67-69 | a rendered timestamp parses back to itself |
| Report.TimestampsOf | tt_metal/tools/profiler/process_device_log.py:64-65 | the selected timestamps are no more than the series' events |
| Report.LastSpace | tt_metal/tools/profiler/process_device_log.py:66-69 | the last space of a cell, with no space after it, or none at all |
| Report.LastSpaceOfJoin | tt_metal/tools/profiler/process_device_log.py:67 | the last space of `a + " " + b` is the joining one when `b` has no space |
| Report.WordsSnoc | tt_metal/tools/profiler/process_device_log.py:67 | splitting a joined cell gives the split of the front plus the new word |
| Report.WordsOfWord | tt_metal/tools/profiler/process_device_log.py:69 | a word without spaces splits into itself |
| Report.WordsOfRender | tt_metal/tools/profiler/process_device_log.py:64-69 | splitting a cell at spaces gives the rendered timestamps one by one |
| Report.CellRoundTrip | tt_metal/tools/profiler/process_device_log.py:64-69 | reading a cell back (split, then parse each word) returns the timestamps |
| Report.ReturnAvailableTimer | tt_metal/tools/profiler/process_device_log.py:58-71 | one cell per (timerID, label), in order, each listing that id's timestamps; all cells are empty when the risc is absent |
| Report.TimerCell | tt_metal/tools/profiler/process_device_log.py:61-70 | one cell lists the risc's timestamps for the id, and is empty when the risc is absent |
| Report.Cell | tt_metal/tools/profiler/process_device_log.py:63-69 | the loop builds the space-joined timestamps of the events with the desired id |
| Report.CellLoopStep | tt_metal/tools/profiler/process_device_log.py:65-69 | a matching event extends the cell by one word; any other event leaves the cell's timestamps unchanged |
| Report.TimestampsSnoc | tt_metal/tools/profiler/process_device_log.py:64-65 | one more event adds its timestamp exactly when the id matches |
| Report.AppendTimestamp | tt_metal/tools/profiler/process_device_log.py:66-69 | an empty cell becomes the timestamp; a non-empty one gets a space and the timestamp |
| Report.CellStep | tt_metal/tools/profiler/process_device_log.py:66-69 | appending to a rendered cell renders the longer list |
| Report.RenderSnoc | tt_metal/tools/profiler/process_device_log.py:66-69 | rendering one more timestamp joins it with a single space unless the list was empty |
| Report.RenderNonEmpty | tt_metal/tools/profiler/process_device_log.py:66-69 | a non-empty list renders to a non-empty cell |
| CircularBuffers.CreateConfigVector | tt_metal/llrt/llrt.cpp:123-127 | NUM_CIRCULAR_BUFFERS * WORDS_PER_CONFIG words, all zero |
| CircularBuffers.ConfigWords | tt_metal/llrt/llrt.cpp:136-142 | the address and size in 16-byte words round down; the page size in 16-byte words times the page count does not exceed the size, with less than one word per page to spare |
| CircularBuffers.PageSizeFloor | tt_metal/llrt/llrt.cpp:136-142 | (size / n) >> 4 is the largest page size in 16-byte words whose n pages fit in size |
| CircularBuffers.SlotIndex | tt_metal/llrt/llrt.cpp:137-142 | the word index is computed in uint32, so it wraps mod 2^32 before the field offset is added |
| CircularBuffers.SlotIndexNoWrap | tt_metal/llrt/llrt.cpp:137-142 | below the wrap, the slot's words are 4 * index + 0..3 |
| CircularBuffers.Store | tt_metal/llrt/llrt.cpp:137-142 | `vector::at` never changes the length |
| CircularBuffers.StoreSlot | tt_metal/llrt/llrt.cpp:137-142 | the four stores succeed exactly when the last index is in range; then the slot reads back the config and nothing else changes; a failing first store changes nothing |
| CircularBuffers.SetConfig | tt_metal/llrt/llrt.cpp:129-143 | no throw exactly when the slot fits; then the slot reads back the config words and every other word is unchanged |
| CircularBuffers.ThrowLeavesVectorUnchanged | tt_metal/llrt/llrt.cpp:137-142 | on a vector of whole slots, a throwing call has written nothing |
| CircularBuffers.SecondStore | tt_metal/llrt/llrt.cpp:129-143 | after configuring buffers i then j, each word holds i's config, j's config or its old value by position |
| CircularBuffers.SlotWord | tt_metal/llrt/llrt.cpp:137-142 | a slot's config fields are its four consecutive words |
| CircularBuffers.ConfigsCommute | tt_metal/llrt/llrt.cpp:129-143 | configuring two distinct buffers gives the same vector in either order |
| CircularBuffers.ModPeriod | tt_metal/llrt/llrt.cpp:137 | adding 2^32 does not change a uint32 result |
| CircularBuffers.IndexWrapAliases | tt_metal/llrt/llrt.cpp:137 | index + 2^30 configures the same slot as index |
| CircularBuffers.WrappedIndexOverwritesSlotZero | tt_metal/llrt/llrt.cpp:137-138 | index 2^30 on a fresh vector does not throw and overwrites buffer 0 |
| CircularBuffers.SetConfigChecked | tt_metal/llrt/llrt.cpp:129-143 | with an unwrapped index: no throw exactly when the slot fits; the slot reads back the config; nothing else changes |
| CircularBuffers.CheckedAcceptsExactlyBuffers | tt_metal/llrt/llrt.cpp:123-143 | on a fresh vector, the checked version accepts exactly the indices below NUM_CIRCULAR_BUFFERS |
| CircularBuffers.CheckedAgreesBelowWrap | tt_metal/llrt/llrt.cpp:137-142 | where the index does not wrap, the checked and the as-written versions agree |
| BriscJump.JumpToFirmware | tt_metal/llrt/llrt.cpp:180-195 | the word is a `jal` (opcode 0x6f) to x0 whose decoded J-type offset is the firmware base rounded down to even |
| BriscJump.JumpReachesEvenBase | tt_metal/llrt/llrt.cpp:184-195 | an even base below `jal_max_offset` is reached exactly |
| BriscJump.JumpWordsDistinct | tt_metal/llrt/llrt.cpp:184-195 | distinct even bases give distinct jump words |

## Left out

- Reading the CSV file, `int()` and `strip()`: a log line is an already
  typed row, or `None` when it does not parse.
- Writing JSON, CSV and HTML, the plots, the dashboard, the command line,
  and the order in which the driver runs the analyses. Every operation is
  modelled on its own, and the caller sequences them.
- Floating point: pandas' mean and median are exact rationals here.
- Integer width: `uint64` timestamps and pandas' `int64` sums are unbounded
  integers.
- `NUM_CIRCULAR_BUFFERS` and `UINT32_WORDS_PER_CIRCULAR_BUFFER_CONFIG` come
  from a header that is not part of this model. The model takes 32 and 4.
- `MEM_BRISC_FIRMWARE_BASE` comes from a header that is not part of this
  model. It is a parameter bounded by the code's own assert.
- `write_hex_vec_to_core` and the cluster calls are device I/O and are not
  modelled.
- The asserts in `core_analysis` and `device_analysis`, and `core in
  deviceData["cores"]` in the aligner, become preconditions.
- `CircularBuffers.SetConfig`: requires `num_pages > 0`, because C++ leaves
  the division by zero undefined.
- `Matching.MetaOf`: it reads only the tag lists the views build: `()`,
  `(risc,)`, `(core,)` and `(risc, core)`. On other lists Python unpacks by
  position into values of the other kind, for example a core read as a risc.
  The typed model cannot hold those values. `Matching.ViewsBuildShapedTags`
  proves that such lists never arise.
- `Stats.Median`: its contract only places the median between two input
  values. It does not say which middle element or elements are averaged.
- `Alignment.Align`: states order preservation and termination. It does
  not state that coalescing is maximal; the discard heuristic promises no
  optimum.
- `Anchor.RunMin`: its own contract is only the upper bound. Minimality and
  first-holder are in `Anchor.RunMinIsMin` and `Anchor.RunMinFirstHolder`.
- `Scopes.RunAnalysis`: its own contract is only the device count. The full
  effect is in `Scopes.RunAnalysisEffect`.

## Findings

| source | as written | input that shows it | evidently intended | confidence | as-written member | corrected member |
|---|---|---|---|---|---|---|
| tt_metal/llrt/llrt.cpp:137-142 | the slot index `UINT32_WORDS_PER_CIRCULAR_BUFFER_CONFIG * circular_buffer_index` is a `uint32_t` product and wraps mod 2^32 before `.at()` checks it | `circular_buffer_index = 0x4000_0000` on a fresh vector: no exception, and buffer 0's words are overwritten | an index past the last buffer is rejected by `.at()` | low, not executed | CircularBuffers.WrappedIndexOverwritesSlotZero | CircularBuffers.SetConfigChecked |
