# Log analyzer core, modelled in Dafny

`debug.py` is a Streamlit page that reads an uploaded debug log and charts how long events
took. Around its widgets and plots sits a small, deterministic pipeline, and that pipeline
is what this project models:

1. **Line parser** (`Utf8`, `LinePattern`, `Records`, `LineFormat`). Each line is decoded
   as strict UTF-8; the record pattern
   `\[(\d+:\d+-[A-F0-9]+)\].*?\((\d+)-(\d+)\s+\[(\d+)\]\)\s+(\w+)\(.*?\):\s+(\d+)\s+ms`
   is searched anywhere in the text; the first match becomes a record
   `(idx, thread, seq, session, event, duration)`. Lines that fail to decode or do not
   match are skipped. The regex is modelled as a predicate `Fits` over the positions of a
   match and a scanner `Search` that is proved to return exactly the match `re.search`
   reports: the leftmost start, then the shortest first `.*?`, then the shortest second
   `.*?`. `LineFormat` writes records out in the log's line format and proves that the
   parser reads them back.
2. **Thread filter and grouping** (`Records.FilterThread`, `Grouping`). The records of the
   selected thread are kept in order and grouped by event (`ed`) and by session (`sd`) in
   insertion-ordered dictionaries; each event's average is the exact mean of its group.
3. **Anomaly rule** (`Anomalies`). A record is flagged when its duration exceeds both the
   minimum and `threshold_factor` times its event's average. The rule is stated over
   integers as `d * count > factor * total` and proved equal to the comparison against the
   exact mean.
4. **Top ten by total** (`Ranking`, `Totals`). Group totals are ranked by Python's stable
   `sorted(..., reverse=True)`, modelled as a stable insertion sort, and cut to ten.
5. **Summary** (`Summary`). One row per event group (count, total, average, maximum),
   sorted by the chosen column, and its first `top_n` rows for the chart.

`Analyzer` strings the pieces together as the page does. It covers the "No valid entries"
branch and the bar chart's data. The widget values are parameters. The four loops of the
script are methods with loop invariants (`Records.ParseLog`,
`Grouping.GroupFiltered`, `Anomalies.DetectAnomalies`, `Summary.BuildSummary`). Each is
proved equal to a recursive function, and the lemmas are stated about that function.

## Model

| member | source | states |
|---|---|---|
| Utf8.Decode | debug.py:28 | strict `line.decode("utf-8")`, `None` where Python raises; specified by DecodeEncode, EncodeDecode and DecodeSucceedsIff |
| Utf8.DecodeFirstOfEncoded | debug.py:28 | the decoder reads back the first character of any encoded text, whatever bytes follow it |
| Utf8.DecodeEncode | debug.py:28 | every text decodes back from its UTF-8 encoding |
| Utf8.EncodeDecode | debug.py:28 | a line that decodes is the canonical encoding of the decoded text: overlong forms, surrogates, code points above U+10FFFF and truncated sequences are rejected |
| Utf8.DecodeSucceedsIff | debug.py:27-30 | a line decodes to `s` if and only if it is the encoding of `s`; every other line is skipped |
| LinePattern.RunIsLongest | debug.py:19 | a run of `\d`, `\s`, `\w` or hex characters followed by a character outside its class is the longest run, so each greedy `+` in the pattern has one choice |
| LinePattern.DotsIffWithinLine | debug.py:19 | `.*?` can stop exactly at the positions up to the next line feed |
| LinePattern.FitsDeterminedByChoices | debug.py:19 | two matches with the same start and the same ends of both lazy parts are the same match |
| LinePattern.Search | debug.py:31 | `pattern.search(line)`: the spans of the first match in backtracking priority, or `None`; specified by SearchFits, SearchFirst, SearchNone and SearchIsFirstMatch |
| LinePattern.SearchFits | debug.py:31 | what the scanner returns is a match of the pattern |
| LinePattern.SearchFirst | debug.py:31 | no match comes before the returned one in backtracking priority (start, then first lazy part, then second) |
| LinePattern.SearchNone | debug.py:31-32 | when the scanner finds nothing, no match exists in the line |
| LinePattern.SearchIsFirstMatch | debug.py:31 | `re.search`: a match is found exactly when one exists, and it is the first in priority |
| LinePattern.SearchFindsEarliestStops | debug.py:31 | a match at the line start with no earlier `(` or `)` where a lazy part could stop is the match returned |
| Records.DigitsValueOfNat | debug.py:34 | `int()` inverts `str()` on every natural number |
| Records.ThreadIdOfFits | debug.py:33 | the captured thread has the shape `digits:digits-HEX` |
| Records.RecordOf | debug.py:33-43 | the record carries the line index, a thread of that shape and a word-character event name; the entity id is not stored |
| Records.ParseLine | debug.py:27-43 | a parsed record has the line's index, a well-formed thread and an event made of word characters |
| Records.ParseLineIffMatch | debug.py:27-32 | a line yields a record exactly when it decodes and the pattern matches somewhere in it; otherwise it is skipped |
| Records.ParseLineFirstMatch | debug.py:31-34 | the record is built from the match that comes first in priority among all matches |
| Records.RecordLineHasMs | debug.py:19 | only a line containing `ms` yields a record |
| Records.ParsedRecords | debug.py:26-43 | `event_data`: the records of the lines that parse, in line order; specified by ParsedRecordsSound, ParsedRecordsComplete and ParsedRecordsIncreasing, and computed by ParseLog |
| Records.ParseLog | debug.py:26-45 | the loop's `event_data` is the records of the parsing lines in order, and `thread_ids` is exactly their set of threads |
| Records.ParsedRecordsSound | debug.py:26-43 | every record names a line that parses to exactly that record |
| Records.ParsedRecordsComplete | debug.py:26-43 | every line that parses contributes its record |
| Records.ParsedRecordsIncreasing | debug.py:26-37 | records are in input order: their line indices strictly increase |
| Records.FilterThread | debug.py:51 | `filtered`: the selected thread's records; specified by FilterThreadSubsequence, FilterThreadMembers and FilterThreadNonEmpty |
| Records.FilterThreadSubsequence | debug.py:51 | `filtered` keeps the order of `event_data` |
| Records.FilterThreadMembers | debug.py:51 | a record is in `filtered` if and only if it is in `event_data` and has the selected thread |
| Records.FilterThreadNonEmpty | debug.py:50-51 | a thread offered for selection keeps at least one record |
| LineFormat.FormatFits | debug.py:19 | a record written in the log's line format, with any single-line free text, matches the pattern at the positions of its parts |
| LineFormat.SearchOfPieces | debug.py:31 | on such a line the search returns exactly those positions when the free text has no `(` or `)` to stop at |
| LineFormat.ParsePieces | debug.py:27-43 | such a line parses to the values written in its pieces |
| LineFormat.ParseFormatLine | debug.py:26-43 | parsing inverts formatting: every record with a well-formed thread and event survives the round trip |
| LineFormat.SampleLine | debug.py:19 | the line `[12:34-ABCD12].....(100-7 [3]) readEvent(...): 250 ms` parses to thread `12:34-ABCD12`, seq 100, session 7, event `readEvent`, 250 ms |
| Grouping.GroupBy | debug.py:53-57 | `ed` or `sd` after appending every `(key, duration)` pair in order; specified by GroupByValid, GroupByKeys, GroupByLists, GroupByOrder and GroupByPartition, and computed by GroupFiltered |
| Grouping.GroupFiltered | debug.py:53-57 | the grouping loop builds `ed` and `sd` as appending each pair in order does |
| Grouping.GroupByValid | debug.py:53-57 | each dictionary's keys are distinct and are exactly the keys holding lists |
| Grouping.GroupByKeys | debug.py:55-57 | the dictionary has a key exactly for the events (sessions) that occur |
| Grouping.GroupByLists | debug.py:56-57 | each list holds exactly the durations of its key, in arrival order |
| Grouping.GroupByOrder | debug.py:53-57 | keys are listed in order of first occurrence, as a Python dict iterates |
| Grouping.GroupByHasKeys | debug.py:55-56 | a non-empty input makes at least one group |
| Grouping.GroupByNonEmpty | debug.py:56-58 | no group is empty, so `sum(v)/len(v)` is defined |
| Grouping.GroupByPartition | debug.py:53-57 | the grouping partitions the records: group sizes add up to the number of records |
| Grouping.Mean | debug.py:58 | `avg[k]` times the group size is the group total |
| Grouping.MeanAtMostMax | debug.py:58 | an average lies between 0 and its group's maximum |
| Grouping.AverageDefined | debug.py:58-63 | every filtered record's event has a non-empty group, so `avg[e["event"]]` exists |
| Anomalies.IsAnomalous | debug.py:63 | the test on one record, cross-multiplied over integers; AnomalyRuleExact proves it is the test against the exact mean |
| Anomalies.CrossMultiplied | debug.py:63 | `d > f * (t / n)` is `d * n > f * t` for positive `n` |
| Anomalies.AnomalyRuleExact | debug.py:63 | the integer rule is the source's test `d > min and d > factor * avg` against the exact mean, in both directions |
| Anomalies.StrictBounds | debug.py:63 | under the exact rule, a duration equal to the minimum or to factor times the mean is not flagged (the float rounding that can flag the second is under Left out) |
| Anomalies.FlaggedOf | debug.py:62-64 | the records the loop appends, in order; specified by AnomaliesSubsequence and AnomaliesMembers |
| Anomalies.AnomaliesOf | debug.py:60-64 | `anomalies`, empty with highlighting off; specified by AnomaliesMembers, the two monotonicity lemmas and ThresholdScenario, and computed by DetectAnomalies |
| Anomalies.GroupedCovers | debug.py:58-63 | `ed` as built covers every filtered record's event |
| Anomalies.DetectAnomalies | debug.py:60-64 | the anomaly loop returns the flagged records in order, or nothing when highlighting is off |
| Anomalies.AnomaliesSubsequence | debug.py:60-64 | anomalies are an order-preserving subsequence of `filtered` |
| Anomalies.AnomaliesMembers | debug.py:62-64 | a record is an anomaly if and only if it is filtered and the test flags it |
| Anomalies.AnomaliesMonotoneInFactor | debug.py:63 | raising `threshold_factor` never adds anomalies |
| Anomalies.AnomaliesMonotoneInMinimum | debug.py:63 | raising `anomaly_min_ms` never adds anomalies |
| Anomalies.ThresholdScenario | debug.py:60-64 | with durations 100, 120 and 2000 ms (mean 740), factor 3 flags nothing and factor 2 flags the 2000 ms record |
| Ranking.SortDesc | debug.py:101 | `sorted(..., key=..., reverse=True)` as a stable insertion sort; specified by SortDescSorted, SortDescPermutes, SortDescStable and SortDescCharacterized |
| Ranking.Take | debug.py:101 | `s[:n]` has `min(n, len(s))` items and is a prefix of `s` |
| Ranking.SortDescSorted | debug.py:101 | the sort orders items by descending key |
| Ranking.SortDescPermutes | debug.py:101 | the sort rearranges its input: same items, same multiplicities |
| Ranking.SortDescStable | debug.py:101 | the sort is stable even in reverse: items with equal keys keep their input order |
| Ranking.SortedStableUnique | debug.py:101 | two descending orderings with the same items per key in the same order are equal |
| Ranking.SortDescCharacterized | debug.py:101 | any stable descending ordering of the input is the one the sort computes |
| Ranking.TopHighest | debug.py:101 | the first `n` sorted items are `min(n, len)` of the input, none with a key below an item left out |
| Ranking.TopStable | debug.py:101 | the cut keeps, for each key, a leading part of that key's items in input order |
| Totals.TotalsOfGroupBy | debug.py:97-99 | each total is the sum of the durations recorded under its key |
| Totals.TopTotals | debug.py:96-101 | `top`; specified by TopTotalsRanked and TopTotalsDistinct |
| Totals.TopTotalsRanked | debug.py:96-101 | `top` has `min(10, #groups)` totals, largest first, ties in first-insertion order, and no group left out has a larger total |
| Totals.TopTotalsDistinct | debug.py:96-101 | no key is ranked twice: `top` names each group at most once |
| Summary.RowOf | debug.py:133-143 | a row's count, total and maximum are the group's length, sum and largest element, and average times count is the total |
| Summary.RowsOf | debug.py:131-143 | the unsorted `summary`, one row per event group in key order; specified by RowsOfAt, RowsOfLength, RowBounds and SummaryCountsRecords, and computed by BuildSummary |
| Summary.BuildSummary | debug.py:131-143 | the summary loop builds one row per event group, in key order |
| Summary.RowsOfAt | debug.py:132-143 | row `i` is the row of the `i`-th event group |
| Summary.RowsOfLength | debug.py:131-143 | there are as many rows as groups |
| Summary.RowBounds | debug.py:133-136 | `max <= total <= count * max`, and the average lies between 0 and the maximum |
| Summary.SummaryCountsRecords | debug.py:131-143 | every group has a row and the rows' counts add up to `len(filtered)` |
| Summary.SortKey | debug.py:124-129 | the column each choice sorts by: total, average, maximum or count; used by SortedSummaryRanked |
| Summary.SortedSummary | debug.py:145 | `summary_sorted`; specified by SortedSummaryRanked |
| Summary.ChartData | debug.py:151 | `chart_data`; specified by ChartDataHighest |
| Summary.SortedSummaryRanked | debug.py:145 | `summary_sorted` holds the same rows, descending in the chosen column, ties in key order |
| Summary.ChartDataHighest | debug.py:151 | `chart_data` has `min(top_n, #rows)` rows, none ranked below a row left out |
| Analyzer.BarsOf | debug.py:96-103 | the `(str(k), total)` bars of the chosen grouping, in the order of `top`; specified by ReportBars and BarLabelsDistinct |
| Analyzer.AnalysisOf | debug.py:47-151 | what the page computes from the lines and the widget values; specified by NoValidEntriesIff and the Report lemmas, and computed by Analyze |
| Analyzer.Analyze | debug.py:26-151 | one run of the page computes the report `AnalysisOf` defines: the loops as written, the rest as expressions |
| Analyzer.NoValidEntriesIff | debug.py:47-48 | the error branch runs exactly when no line yields a record |
| Analyzer.ReportFiltered | debug.py:35-57 | the thread list is the threads of all records, the shown records are exactly the selected thread's, and a listed thread shows at least one record and one group |
| Analyzer.ReportAnomalies | debug.py:60-64 | the anomalies come from the shown records in order, and there are none with highlighting off |
| Analyzer.ReportBars | debug.py:96-103 | the bar chart shows `min(10, #groups)` bars of the chosen grouping |
| Analyzer.BarLabelsDistinct | debug.py:96-106 | no two bars carry the same label: every event type or session gets at most one bar, and `str()` keeps distinct sessions apart |
| Analyzer.ReportSummary | debug.py:131-145 | the summary has exactly one row per event group, each group non-empty |

## Left out

- Widgets, file upload and `readlines` (debug.py:6-15, 18, 50, 123, 148-150): the uploaded lines, the selected thread, `threshold_factor`, `anomaly_min_ms`, the highlight switch, the chart type and grouping, the sort column, the summary-chart switch and `top_n` are parameters. The model accepts any values, not only the slider ranges.
- The selectbox order `sorted(thread_ids)` (debug.py:50): only the set of threads is modelled, and the choice among them is a parameter.
- All output and drawing (debug.py:48, 66-93, 104-110, 112-119, 146, 152-159): `st.error`, `st.dataframe`, `st.pyplot` and matplotlib. So are the timeline's point selection, which iterates a `set` in unspecified order, and the chart `metric` choice (debug.py:149).
- The unfiltered accumulators `event_durations` and `session_durations` (debug.py:22-23, 44-45): they are built but never read.
- Summary.RowOf: the average is the exact mean, not `round(avg_d, 2)` (debug.py:141), because floating-point rounding is not modelled.
- Records.RecordOf: every digit string converts to its value, whereas Python's `int()` at debug.py:34 raises `ValueError` on a string of more than 4300 digits (the default limit since Python 3.11). That call sits outside the `try` of debug.py:27-30, so such a line in the sequence, session, entity or duration group stops the page instead of yielding a record. The model has no digit limit.
- Grouping.Mean: the mean is exact, whereas `sum(v)/len(v)` at debug.py:58 is a float division that raises `OverflowError` when the mean exceeds the largest double (about 1.8e308, a duration of some 309 digits). The page then stops before the summary's own division at debug.py:135, which runs over the same groups. The model has no such bound.
- Summary.SortKey: "Average" ranks rows by the exact mean, whereas the source compares means rounded to two decimals (debug.py:126, 141). Rounding keeps the order of means that round apart, but means less than 0.01 apart can round to the same value (13001/13 and 12001/12 both give 1000.08). The source keeps such rows in key order; the model ranks them by exact mean.
- Anomalies.IsAnomalous: the rule is exact, `d * count > factor * total`, whereas the source compares `d` with the float `threshold_factor * (total / count)` (debug.py:58, 63). Rounding can put that product just below a duration that equals factor times the exact mean. With the durations 115, 7 and twelve of 9 ms (total 230, count 14), factor 7 and minimum 100, the float product is 114.99999999999999, so the source flags the 115 ms record; the model does not, since 115 * 14 == 7 * 230. Away from such equality the two agree unless `factor * total` reaches about 2^52.
- Python's Unicode `\d`, `\w` and `\s` and `int()` on non-ASCII digits: `\d` and `\w` are ASCII only, and `\s` is the set of characters `str.isspace` accepts. A line whose match would use a non-ASCII digit or word character is outside the model.
- The pattern is modelled only as written; other regular expressions are not.
