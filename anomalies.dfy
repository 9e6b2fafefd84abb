/**
  The anomaly loop of debug.py:60-64: with highlighting on, a filtered record is flagged
  when its duration exceeds both the minimum and `threshold_factor` times the average of
  its event's group in `ed`.
*/
module Anomalies {
  import opened Basics
  import opened Records
  import opened Grouping

  /**
    `d > min_ms and d > factor * (total / count)`, with the division cleared: exact on
    integers, where the source compares floats.
  */
  predicate IsAnomalous(d: nat, minMs: int, factor: int, total: nat, count: nat) {
    d > minMs && d * count > factor * total
  }

  /** The integer rule is the source's comparison against the exact mean. */
  lemma AnomalyRuleExact(d: nat, minMs: int, factor: int, ds: seq<nat>)
    requires |ds| > 0
    ensures IsAnomalous(d, minMs, factor, Sum(ds), |ds|)
        <==> d > minMs && d as real > factor as real * Mean(ds)
  {
    CrossMultiplied(d, factor, Sum(ds), |ds|);
  }

  /** `d > f * (t / n)` is `d * n > f * t` when `n` is positive. */
  lemma CrossMultiplied(d: int, f: int, t: int, n: int)
    requires n > 0
    ensures d * n > f * t <==> d as real > f as real * (t as real / n as real)
  {
    var nr := n as real;
    var y := f as real * (t as real / n as real);
    CastProduct(d, n);
    ScaledQuotient(f, t, n);
    ScaleStrict(d as real, y, nr);
  }

  lemma CastProduct(a: int, b: int)
    ensures (a * b) as real == a as real * b as real
  {
  }

  lemma ScaledQuotient(f: int, t: int, n: int)
    requires n > 0
    ensures (f * t) as real == (f as real * (t as real / n as real)) * n as real
  {
    var m := t as real / n as real;
    assert m * n as real == t as real;
    CastProduct(f, t);
    assert (f as real * m) * n as real == f as real * (m * n as real);
  }

  lemma ScaleStrict(x: real, y: real, n: real)
    requires n > 0.0
    ensures x * n > y * n <==> x > y
  {
    if x > y {
      assert (x - y) * n > 0.0;
      assert x * n - y * n == (x - y) * n;
    } else {
      assert (y - x) * n >= 0.0;
      assert y * n - x * n == (y - x) * n;
    }
  }

  /** Every record's event has a non-empty group: what `avg[e["event"]]` needs. */
  ghost predicate Covers(filtered: seq<EventRecord>, ed: Groups<string>) {
    forall r :: r in filtered ==> r.event in ed.lists && |ed.lists[r.event]| > 0
  }

  /** The test of debug.py:63 for record `r`. */
  predicate Flagged(r: EventRecord, ed: Groups<string>, factor: int, minMs: int)
    requires r.event in ed.lists && |ed.lists[r.event]| > 0
  {
    var ds := ed.lists[r.event];
    IsAnomalous(r.duration, minMs, factor, Sum(ds), |ds|)
  }

  /** The records of `filtered` that the test flags, in order. */
  function FlaggedOf(filtered: seq<EventRecord>, ed: Groups<string>, factor: int, minMs: int): seq<EventRecord>
    requires Covers(filtered, ed)
  {
    if |filtered| == 0 then []
    else
      assert Last(filtered) in filtered;
      assert forall r :: r in Init(filtered) ==> r in filtered;
      var prev := FlaggedOf(Init(filtered), ed, factor, minMs);
      if Flagged(Last(filtered), ed, factor, minMs) then prev + [Last(filtered)] else prev
  }

  /** `anomalies` after debug.py:60-64: nothing unless highlighting is on. */
  function AnomaliesOf(filtered: seq<EventRecord>, ed: Groups<string>, highlight: bool, factor: int, minMs: int): seq<EventRecord>
    requires Covers(filtered, ed)
  {
    if highlight then FlaggedOf(filtered, ed, factor, minMs) else []
  }

  /** The anomaly loop (debug.py:60-64). */
  method DetectAnomalies(filtered: seq<EventRecord>, ed: Groups<string>, highlight: bool, factor: int, minMs: int)
    returns (anomalies: seq<EventRecord>)
    requires Covers(filtered, ed)
    ensures anomalies == AnomaliesOf(filtered, ed, highlight, factor, minMs)
  {
    anomalies := [];
    if highlight {
      for i := 0 to |filtered|
        invariant Covers(filtered[..i], ed)
        invariant anomalies == FlaggedOf(filtered[..i], ed, factor, minMs)
      {
        var e := filtered[i];
        assert e in filtered;
        assert Init(filtered[..i + 1]) == filtered[..i] && Last(filtered[..i + 1]) == e;
        var ds := ed.lists[e.event];
        if e.duration > minMs && e.duration * |ds| > factor * Sum(ds) {
          anomalies := anomalies + [e];
        }
      }
      assert filtered[..|filtered|] == filtered;
    }
  }

  /** `ed` as the grouping loop builds it covers every filtered record. */
  lemma GroupedCovers(filtered: seq<EventRecord>)
    ensures Covers(filtered, GroupBy(EventPairs(filtered)))
  {
    forall r | r in filtered
      ensures r.event in GroupBy(EventPairs(filtered)).lists
      ensures |GroupBy(EventPairs(filtered)).lists[r.event]| > 0
    {
      var i :| 0 <= i < |filtered| && filtered[i] == r;
      AverageDefined(filtered, i);
    }
  }

  /** The anomalies keep the order of the records they come from. */
  lemma {:induction false} AnomaliesSubsequence(filtered: seq<EventRecord>, ed: Groups<string>, factor: int, minMs: int)
    requires Covers(filtered, ed)
    ensures IsSubsequence(FlaggedOf(filtered, ed, factor, minMs), filtered)
  {
    if |filtered| > 0 {
      assert forall r :: r in Init(filtered) ==> r in filtered;
      AnomaliesSubsequence(Init(filtered), ed, factor, minMs);
      assert filtered == Init(filtered) + [Last(filtered)];
      SubsequenceExtend(FlaggedOf(Init(filtered), ed, factor, minMs), Init(filtered), Last(filtered));
    }
  }

  /** A record is an anomaly exactly when highlighting is on, it is filtered, and the test flags it. */
  lemma {:induction false} AnomaliesMembers(filtered: seq<EventRecord>, ed: Groups<string>, factor: int, minMs: int, r: EventRecord)
    requires Covers(filtered, ed)
    ensures r in FlaggedOf(filtered, ed, factor, minMs) <==> r in filtered && Flagged(r, ed, factor, minMs)
  {
    if |filtered| > 0 {
      assert forall x :: x in Init(filtered) ==> x in filtered;
      AnomaliesMembers(Init(filtered), ed, factor, minMs, r);
      assert filtered == Init(filtered) + [Last(filtered)];
    }
  }

  /** Raising the factor never adds anomalies: averages are never negative. */
  lemma {:induction false} AnomaliesMonotoneInFactor(filtered: seq<EventRecord>, ed: Groups<string>, f1: int, f2: int, minMs: int)
    requires Covers(filtered, ed) && f1 <= f2
    ensures IsSubsequence(FlaggedOf(filtered, ed, f2, minMs), FlaggedOf(filtered, ed, f1, minMs))
  {
    if |filtered| > 0 {
      assert forall r :: r in Init(filtered) ==> r in filtered;
      AnomaliesMonotoneInFactor(Init(filtered), ed, f1, f2, minMs);
      var x := Last(filtered);
      assert x in filtered;
      var ds := ed.lists[x.event];
      assert f1 * Sum(ds) <= f2 * Sum(ds) by {
        assert (f2 - f1) * Sum(ds) >= 0;
      }
      var a1 := FlaggedOf(Init(filtered), ed, f1, minMs);
      var a2 := FlaggedOf(Init(filtered), ed, f2, minMs);
      if Flagged(x, ed, f2, minMs) {
        SubsequenceExtend(a2, a1, x);
      } else if Flagged(x, ed, f1, minMs) {
        SubsequenceExtend(a2, a1, x);
      }
    }
  }

  /** Raising the minimum duration never adds anomalies. */
  lemma {:induction false} AnomaliesMonotoneInMinimum(filtered: seq<EventRecord>, ed: Groups<string>, factor: int, m1: int, m2: int)
    requires Covers(filtered, ed) && m1 <= m2
    ensures IsSubsequence(FlaggedOf(filtered, ed, factor, m2), FlaggedOf(filtered, ed, factor, m1))
  {
    if |filtered| > 0 {
      assert forall r :: r in Init(filtered) ==> r in filtered;
      AnomaliesMonotoneInMinimum(Init(filtered), ed, factor, m1, m2);
      var x := Last(filtered);
      assert x in filtered;
      var a1 := FlaggedOf(Init(filtered), ed, factor, m1);
      var a2 := FlaggedOf(Init(filtered), ed, factor, m2);
      SubsequenceExtend(a2, a1, x);
    }
  }

  /** Both bounds are strict: a duration equal to the minimum or to factor times the mean is not flagged. */
  lemma StrictBounds(d: nat, minMs: int, factor: int, ds: seq<nat>)
    requires |ds| > 0
    requires d == minMs || d as real == factor as real * Mean(ds)
    ensures !IsAnomalous(d, minMs, factor, Sum(ds), |ds|)
  {
    AnomalyRuleExact(d, minMs, factor, ds);
  }

  /**
    Three `X` records of one thread lasting 100, 120 and 2000 ms: the mean is 740, so with
    factor 3 and minimum 500 the 2000 ms record is not flagged (2000 < 2220), while with
    factor 2 it is.
  */
  lemma ThresholdScenario(filtered: seq<EventRecord>)
    requires filtered == [EventRecord(0, "T1", 0, 0, "X", 100), EventRecord(1, "T1", 0, 0, "X", 120),
                          EventRecord(2, "T1", 0, 0, "X", 2000)]
    ensures Covers(filtered, GroupBy(EventPairs(filtered)))
    ensures AnomaliesOf(filtered, GroupBy(EventPairs(filtered)), true, 3, 500) == []
    ensures AnomaliesOf(filtered, GroupBy(EventPairs(filtered)), true, 2, 500) == [filtered[2]]
  {
    GroupedCovers(filtered);
    var ps := EventPairs(filtered);
    assert ps == [("X", 100), ("X", 120), ("X", 2000)];
    assert Init(ps) == [("X", 100), ("X", 120)];
    assert Init(Init(ps)) == [("X", 100)];
    assert Init(Init(Init(ps))) == [];
    var g0 := GroupBy(Init(Init(Init(ps))));
    assert g0 == Groups([], map[]);
    var g1 := GroupBy(Init(Init(ps)));
    assert g1 == Add(g0, "X", 100);
    assert "X" in g1.lists && g1.lists["X"] == [100];
    var g2 := GroupBy(Init(ps));
    assert g2 == Add(g1, "X", 120);
    assert "X" in g2.lists && g2.lists["X"] == [100] + [120] == [100, 120];
    var ed := GroupBy(ps);
    assert ed == Add(g2, "X", 2000);
    assert "X" in ed.lists && ed.lists["X"] == [100, 120] + [2000] == [100, 120, 2000];
    assert Sum([100, 120, 2000]) == 2220 by {
      assert Init([100, 120, 2000]) == [100, 120];
      assert Init([100, 120]) == [100];
      assert Init([100]) == [];
    }
    assert Init(filtered) == filtered[..2];
    assert Init(filtered[..2]) == filtered[..1];
    assert Init(filtered[..1]) == [];
    assert FlaggedOf(filtered[..1], ed, 3, 500) == [];
    assert FlaggedOf(filtered[..2], ed, 3, 500) == [];
    assert FlaggedOf(filtered[..1], ed, 2, 500) == [];
    assert FlaggedOf(filtered[..2], ed, 2, 500) == [];
  }
}
