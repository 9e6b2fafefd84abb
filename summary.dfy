/**
  The event duration summary (debug.py:123-151): one row per event group of `ed` with its
  count, total, average and maximum, the rows sorted by the chosen column, largest first,
  and the first `top_n` rows charted.
*/
module Summary {
  import opened Basics
  import opened Records
  import opened Grouping
  import opened Ranking

  /** One row of the summary table (debug.py:137-143); the average is exact, not rounded. */
  datatype SummaryRow = SummaryRow(event: string, count: nat, total: nat, average: real, maxDuration: nat)

  /** The column the table is sorted by (debug.py:123-129). */
  datatype SortBy = Total | Average | Max | Count

  /** Every listed event has a non-empty group, so `max(durations)` and the average exist. */
  predicate NonEmptyGroups(ed: Groups<string>) {
    forall k :: k in ed.keys ==> k in ed.lists && |ed.lists[k]| > 0
  }

  /** The row of one group (debug.py:133-143). */
  function RowOf(event: string, ds: seq<nat>): (row: SummaryRow)
    requires |ds| > 0
    ensures row.event == event && row.count == |ds| && row.total == Sum(ds)
    ensures row.maxDuration in ds && forall i :: 0 <= i < |ds| ==> ds[i] <= row.maxDuration
    ensures row.average * row.count as real == row.total as real
  {
    SummaryRow(event, |ds|, Sum(ds), Mean(ds), MaxOf(ds))
  }

  /** The rows of the groups listed in `keys`, in that order. */
  function RowsOf(keys: seq<string>, lists: map<string, seq<nat>>): seq<SummaryRow>
    requires forall k :: k in keys ==> k in lists && |lists[k]| > 0
  {
    if |keys| == 0 then []
    else
      assert Last(keys) in keys;
      assert forall k :: k in Init(keys) ==> k in keys;
      RowsOf(Init(keys), lists) + [RowOf(Last(keys), lists[Last(keys)])]
  }

  /** The summary loop (debug.py:131-143): one row per group, in the dictionary's key order. */
  method BuildSummary(ed: Groups<string>) returns (summary: seq<SummaryRow>)
    requires NonEmptyGroups(ed)
    ensures summary == RowsOf(ed.keys, ed.lists)
  {
    summary := [];
    for i := 0 to |ed.keys|
      invariant summary == RowsOf(ed.keys[..i], ed.lists)
    {
      var event := ed.keys[i];
      var durations := ed.lists[event];
      assert Init(ed.keys[..i + 1]) == ed.keys[..i] && Last(ed.keys[..i + 1]) == event;
      var total := Sum(durations);
      var count := |durations|;
      var avg := total as real / count as real;
      var maxDur := MaxOf(durations);
      summary := summary + [SummaryRow(event, count, total, avg, maxDur)];
    }
    assert ed.keys[..|ed.keys|] == ed.keys;
  }

  /** Row `i` is the row of the `i`-th group: the summary lists the groups in key order. */
  lemma {:induction false} RowsOfAt(keys: seq<string>, lists: map<string, seq<nat>>, i: nat)
    requires forall k :: k in keys ==> k in lists && |lists[k]| > 0
    requires i < |keys|
    ensures |RowsOf(keys, lists)| == |keys|
    ensures RowsOf(keys, lists)[i] == RowOf(keys[i], lists[keys[i]])
  {
    assert forall k :: k in Init(keys) ==> k in keys;
    RowsOfLength(Init(keys), lists);
    if i < |keys| - 1 {
      RowsOfAt(Init(keys), lists, i);
    }
  }

  lemma {:induction false} RowsOfLength(keys: seq<string>, lists: map<string, seq<nat>>)
    requires forall k :: k in keys ==> k in lists && |lists[k]| > 0
    ensures |RowsOf(keys, lists)| == |keys|
  {
    if |keys| > 0 {
      assert forall k :: k in Init(keys) ==> k in keys;
      RowsOfLength(Init(keys), lists);
    }
  }

  /** A row's figures agree: `max <= total <= count * max`, and the average lies between 0 and the maximum. */
  lemma RowBounds(event: string, ds: seq<nat>)
    requires |ds| > 0
    ensures RowOf(event, ds).maxDuration <= RowOf(event, ds).total
    ensures RowOf(event, ds).total <= RowOf(event, ds).count * RowOf(event, ds).maxDuration
    ensures 0.0 <= RowOf(event, ds).average <= RowOf(event, ds).maxDuration as real
  {
    MaxAtMostSum(ds);
    SumAtMostCountTimes(ds, MaxOf(ds));
    MeanAtMostMax(ds);
  }

  /** The sum of the rows' counts. */
  function CountSum(rows: seq<SummaryRow>): nat {
    if |rows| == 0 then 0 else CountSum(Init(rows)) + Last(rows).count
  }

  lemma {:induction false} CountSumOfRows(keys: seq<string>, lists: map<string, seq<nat>>)
    requires forall k :: k in keys ==> k in lists && |lists[k]| > 0
    ensures CountSum(RowsOf(keys, lists)) == TotalSize(keys, lists)
  {
    if |keys| > 0 {
      assert forall k :: k in Init(keys) ==> k in keys;
      CountSumOfRows(Init(keys), lists);
    }
  }

  /** The summary of the grouped records covers every record once: its counts add up to `len(filtered)`. */
  lemma SummaryCountsRecords(filtered: seq<EventRecord>)
    ensures NonEmptyGroups(GroupBy(EventPairs(filtered)))
    ensures var ed := GroupBy(EventPairs(filtered));
      CountSum(RowsOf(ed.keys, ed.lists)) == |filtered|
  {
    var ps := EventPairs(filtered);
    var ed := GroupBy(ps);
    GroupByPartition(ps);
    forall k | k in ed.keys ensures k in ed.lists && |ed.lists[k]| > 0 {
      GroupByNonEmpty(ps, k);
    }
    CountSumOfRows(ed.keys, ed.lists);
  }

  /** `sort_key`: the column a row is ranked by. */
  function SortKey(column: SortBy): SummaryRow -> real {
    match column
    case Total => (r: SummaryRow) => r.total as real
    case Average => (r: SummaryRow) => r.average
    case Max => (r: SummaryRow) => r.maxDuration as real
    case Count => (r: SummaryRow) => r.count as real
  }

  /** `summary_sorted` (debug.py:145). */
  function SortedSummary(rows: seq<SummaryRow>, column: SortBy): seq<SummaryRow> {
    SortDesc(rows, SortKey(column))
  }

  /** `chart_data = summary_sorted[:top_n]` (debug.py:151). */
  function ChartData(sorted: seq<SummaryRow>, topN: nat): seq<SummaryRow> {
    Take(sorted, topN)
  }

  /**
    The sorted table holds the same rows, largest first in the chosen column, with rows
    that tie in that column in the order of the dictionary.
  */
  lemma SortedSummaryRanked(rows: seq<SummaryRow>, column: SortBy)
    ensures multiset(SortedSummary(rows, column)) == multiset(rows)
    ensures SortedDesc(SortedSummary(rows, column), SortKey(column))
    ensures forall v :: KeyFilter(SortedSummary(rows, column), SortKey(column), v) == KeyFilter(rows, SortKey(column), v)
  {
    SortDescPermutes(rows, SortKey(column));
    SortDescSorted(rows, SortKey(column));
    forall v ensures KeyFilter(SortedSummary(rows, column), SortKey(column), v) == KeyFilter(rows, SortKey(column), v) {
      SortDescStable(rows, SortKey(column), v);
    }
  }

  /** The chart shows `min(top_n, #rows)` rows, none ranked below a row it leaves out. */
  lemma ChartDataHighest(rows: seq<SummaryRow>, column: SortBy, topN: nat)
    ensures |ChartData(SortedSummary(rows, column), topN)| == if topN < |rows| then topN else |rows|
    ensures multiset(ChartData(SortedSummary(rows, column), topN)) <= multiset(rows)
    ensures forall i, y ::
      0 <= i < |ChartData(SortedSummary(rows, column), topN)| &&
      y in multiset(rows) - multiset(ChartData(SortedSummary(rows, column), topN)) ==>
        SortKey(column)(ChartData(SortedSummary(rows, column), topN)[i]) >= SortKey(column)(y)
  {
    TopHighest(rows, SortKey(column), topN);
  }
}
