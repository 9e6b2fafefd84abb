/**
  The script's data flow once a file is uploaded (debug.py:17-151): parse every line; stop
  with an error when nothing parsed; otherwise filter one thread, group it, flag anomalies,
  rank the group totals for the bar chart and build the sorted summary. The widget values
  are parameters and the drawing is not modelled.
*/
module Analyzer {
  import opened Basics
  import opened Utf8
  import opened Records
  import opened Grouping
  import opened Anomalies
  import opened Ranking
  import opened Totals
  import opened Summary

  datatype ChartType = Timeline | BarChart

  /** What the bar chart groups by (debug.py:12). */
  datatype GroupKey = EventType | SessionId

  /** The widget values the computation reads (debug.py:11-15, 123, 148, 150). */
  datatype Settings = Settings(
    chart: ChartType, groupBy: GroupKey, highlight: bool, factor: int, minMs: int,
    sortBy: SortBy, showSummaryChart: bool, topN: nat)

  /** What the script computes: the error branch, or everything it shows. */
  datatype Report =
    | NoValidEntries
    | Report(
        threadIds: set<string>, filtered: seq<EventRecord>, ed: Groups<string>, sd: Groups<nat>,
        anomalies: seq<EventRecord>, bars: Option<seq<(string, nat)>>,
        summary: seq<SummaryRow>, chartData: Option<seq<SummaryRow>>)

  /** `[(str(k), v) for k, v in top]`: the bar labels with their totals (debug.py:102-103). */
  function Labelled<K>(top: seq<(K, nat)>, name: K -> string): seq<(string, nat)>
  {
    seq(|top|, i requires 0 <= i < |top| => (name(top[i].0), top[i].1))
  }

  function EventLabel(k: string): string {
    k
  }

  function SessionLabel(k: nat): string {
    NatToDigits(k)
  }

  /** The bars of the bar chart over `ed` or `sd` (debug.py:96-103). */
  function BarsOf(ed: Groups<string>, sd: Groups<nat>, groupBy: GroupKey): seq<(string, nat)>
    requires KeysListed(ed) && KeysListed(sd)
  {
    match groupBy
    case EventType => Labelled(TopTotals(ed), EventLabel)
    case SessionId => Labelled(TopTotals(sd), SessionLabel)
  }

  /** The report for `lines` with thread `selected` chosen and the given widget values. */
  function AnalysisOf(lines: seq<seq<byte>>, selected: string, settings: Settings): Report {
    var records := ParsedRecords(lines);
    if |records| == 0 then NoValidEntries
    else
      var filtered := FilterThread(records, selected);
      var ed := GroupBy(EventPairs(filtered));
      var sd := GroupBy(SessionPairs(filtered));
      GroupedCovers(filtered);
      GroupByListed(EventPairs(filtered));
      GroupByListed(SessionPairs(filtered));
      SummaryCountsRecords(filtered);
      var anomalies := AnomaliesOf(filtered, ed, settings.highlight, settings.factor, settings.minMs);
      var bars := if settings.chart == BarChart then Some(BarsOf(ed, sd, settings.groupBy)) else None;
      var summary := SortedSummary(RowsOf(ed.keys, ed.lists), settings.sortBy);
      var chartData := if settings.showSummaryChart then Some(ChartData(summary, settings.topN)) else None;
      Report(ThreadsOf(records), filtered, ed, sd, anomalies, bars, summary, chartData)
  }

  /** The script run once over `lines`: the loops as they are written, the rest as expressions. */
  method Analyze(lines: seq<seq<byte>>, selected: string, settings: Settings) returns (report: Report)
    ensures report == AnalysisOf(lines, selected, settings)
  {
    var eventData, threadIds := ParseLog(lines);
    if |eventData| == 0 {
      return NoValidEntries;
    }
    var filtered := FilterThread(eventData, selected);
    var ed, sd := GroupFiltered(filtered);
    GroupedCovers(filtered);
    GroupByListed(EventPairs(filtered));
    GroupByListed(SessionPairs(filtered));
    SummaryCountsRecords(filtered);
    var anomalies := DetectAnomalies(filtered, ed, settings.highlight, settings.factor, settings.minMs);
    var bars := None;
    if settings.chart == BarChart {
      bars := Some(BarsOf(ed, sd, settings.groupBy));
    }
    var rows := BuildSummary(ed);
    var summary := SortedSummary(rows, settings.sortBy);
    var chartData := None;
    if settings.showSummaryChart {
      chartData := Some(ChartData(summary, settings.topN));
    }
    report := Report(threadIds, filtered, ed, sd, anomalies, bars, summary, chartData);
  }

  /** The error branch runs exactly when no line of the file yields a record (debug.py:47-48). */
  lemma NoValidEntriesIff(lines: seq<seq<byte>>, selected: string, settings: Settings)
    ensures AnalysisOf(lines, selected, settings).NoValidEntries? <==>
      forall i :: 0 <= i < |lines| ==> ParseLine(i, lines[i]).None?
  {
    var records := ParsedRecords(lines);
    if |records| == 0 {
      forall i | 0 <= i < |lines| ensures ParseLine(i, lines[i]).None? {
        if ParseLine(i, lines[i]).Some? {
          ParsedRecordsComplete(lines, i);
        }
      }
    } else {
      ParsedRecordsSound(lines);
      assert records[0] in records;
    }
  }

  /**
    A report lists the threads of all records, and shows exactly the selected thread's
    records: at least one, with at least one event group, when that thread occurs.
  */
  lemma ReportFiltered(lines: seq<seq<byte>>, selected: string, settings: Settings)
    requires AnalysisOf(lines, selected, settings).Report?
    ensures var r := AnalysisOf(lines, selected, settings);
      && r.threadIds == ThreadsOf(ParsedRecords(lines))
      && (forall e :: e in r.filtered <==> e in ParsedRecords(lines) && e.thread == selected)
      && (selected in r.threadIds ==> |r.filtered| > 0 && |r.ed.keys| > 0)
  {
    var r := AnalysisOf(lines, selected, settings);
    var records := ParsedRecords(lines);
    forall e ensures e in r.filtered <==> e in records && e.thread == selected {
      FilterThreadMembers(records, selected, e);
    }
    if selected in r.threadIds {
      FilterThreadNonEmpty(records, selected);
      GroupByHasKeys(EventPairs(r.filtered));
    }
  }

  /** The anomalies are drawn from the shown records in order, and there are none unless highlighting is on. */
  lemma ReportAnomalies(lines: seq<seq<byte>>, selected: string, settings: Settings)
    requires AnalysisOf(lines, selected, settings).Report?
    ensures var r := AnalysisOf(lines, selected, settings);
      && IsSubsequence(r.anomalies, r.filtered)
      && (!settings.highlight ==> r.anomalies == [])
  {
    var r := AnalysisOf(lines, selected, settings);
    GroupedCovers(r.filtered);
    if settings.highlight {
      AnomaliesSubsequence(r.filtered, r.ed, settings.factor, settings.minMs);
    }
  }

  /** The bar chart shows the `min(10, #groups)` largest totals of the chosen grouping. */
  lemma ReportBars(lines: seq<seq<byte>>, selected: string, settings: Settings)
    requires AnalysisOf(lines, selected, settings).Report?
    requires settings.chart == BarChart
    ensures var r := AnalysisOf(lines, selected, settings);
      var groups := if settings.groupBy == EventType then |r.ed.keys| else |r.sd.keys|;
      r.bars.Some? && |r.bars.value| == if TopCount < groups then TopCount else groups
  {
    var r := AnalysisOf(lines, selected, settings);
    GroupByListed(EventPairs(r.filtered));
    GroupByListed(SessionPairs(r.filtered));
    TopTotalsRanked(r.ed);
    TopTotalsRanked(r.sd);
  }

  /** The summary has one row per event group, each group's row exactly once. */
  lemma ReportSummary(lines: seq<seq<byte>>, selected: string, settings: Settings)
    requires AnalysisOf(lines, selected, settings).Report?
    ensures var r := AnalysisOf(lines, selected, settings);
      && NonEmptyGroups(r.ed)
      && multiset(r.summary) == multiset(RowsOf(r.ed.keys, r.ed.lists))
      && |r.summary| == |r.ed.keys|
  {
    var r := AnalysisOf(lines, selected, settings);
    SummaryCountsRecords(r.filtered);
    var rows := RowsOf(r.ed.keys, r.ed.lists);
    RowsOfLength(r.ed.keys, r.ed.lists);
    SortedSummaryRanked(rows, settings.sortBy);
    assert |multiset(r.summary)| == |multiset(rows)|;
  }

  /** No two bars carry the same label: each bar is a different event type or session. */
  lemma BarLabelsDistinct(lines: seq<seq<byte>>, selected: string, settings: Settings)
    requires AnalysisOf(lines, selected, settings).Report?
    requires settings.chart == BarChart
    ensures var bars := AnalysisOf(lines, selected, settings).bars;
      bars.Some? && forall i, j :: 0 <= i < j < |bars.value| ==> bars.value[i].0 != bars.value[j].0
  {
    var r := AnalysisOf(lines, selected, settings);
    GroupByListed(EventPairs(r.filtered));
    GroupByListed(SessionPairs(r.filtered));
    GroupByValid(EventPairs(r.filtered));
    GroupByValid(SessionPairs(r.filtered));
    var bars := r.bars.value;
    if settings.groupBy == EventType {
      var top := TopTotals(r.ed);
      TopTotalsDistinct(r.ed);
      assert |bars| == |top| && forall i :: 0 <= i < |top| ==> bars[i].0 == EventLabel(top[i].0);
    } else {
      var top := TopTotals(r.sd);
      TopTotalsDistinct(r.sd);
      assert |bars| == |top| && forall i :: 0 <= i < |top| ==> bars[i].0 == SessionLabel(top[i].0);
      forall i, j | 0 <= i < j < |top| ensures SessionLabel(top[i].0) != SessionLabel(top[j].0) {
        DigitsValueOfNat(top[i].0);
        DigitsValueOfNat(top[j].0);
      }
    }
  }
}
