/**
  The bar chart's data (debug.py:96-101): the total duration of every group of `ed` or of
  `sd`, ranked by total with a stable descending sort, the ten largest kept.
*/
module Totals {
  import opened Basics
  import opened Grouping
  import opened Ranking

  /** How many bars the chart shows (debug.py:101). */
  const TopCount: nat := 10

  /** Every listed key has a group. */
  predicate KeysListed<K>(g: Groups<K>) {
    forall k :: k in g.keys ==> k in g.lists
  }

  /** `{k: sum(v) for k, v in g.items()}.items()`: each key with its total, in key order (debug.py:97, 99). */
  function TotalsOf<K>(g: Groups<K>): seq<(K, nat)>
    requires KeysListed(g)
  {
    seq(|g.keys|, i requires 0 <= i < |g.keys| => (g.keys[i], Sum(g.lists[g.keys[i]])))
  }

  /** The sort key `lambda x: x[1]`. */
  function TotalKey<K>(x: (K, nat)): real {
    x.1 as real
  }

  /** `top`: the totals sorted by value, largest first, cut to ten (debug.py:101). */
  function TopTotals<K>(g: Groups<K>): seq<(K, nat)>
    requires KeysListed(g)
  {
    Take(SortDesc(TotalsOf(g), TotalKey), TopCount)
  }

  /** The dictionary the grouping loop builds lists every key it holds. */
  lemma GroupByListed<K(!new)>(ps: seq<(K, nat)>)
    ensures KeysListed(GroupBy(ps))
  {
    GroupByValid(ps);
  }

  /** Each total is the sum of the durations that arrived under its key. */
  lemma TotalsOfGroupBy<K(!new)>(ps: seq<(K, nat)>)
    ensures KeysListed(GroupBy(ps))
    ensures forall i :: 0 <= i < |TotalsOf(GroupBy(ps))| ==>
      TotalsOf(GroupBy(ps))[i].1 == Sum(DurationsOf(ps, TotalsOf(GroupBy(ps))[i].0))
  {
    GroupByListed(ps);
    var g := GroupBy(ps);
    forall i | 0 <= i < |g.keys| ensures g.lists[g.keys[i]] == DurationsOf(ps, g.keys[i]) {
      GroupByLists(ps, g.keys[i]);
    }
  }

  /**
    The bars: `min(10, #groups)` of the group totals, largest first, with equal totals in
    first-insertion order, and no group left out has a larger total than one shown.
  */
  lemma TopTotalsRanked<K>(g: Groups<K>)
    requires KeysListed(g)
    ensures |TopTotals(g)| == if TopCount < |g.keys| then TopCount else |g.keys|
    ensures SortedDesc(TopTotals(g), TotalKey)
    ensures multiset(TopTotals(g)) <= multiset(TotalsOf(g))
    ensures forall i, y :: 0 <= i < |TopTotals(g)| && y in multiset(TotalsOf(g)) - multiset(TopTotals(g)) ==>
      TopTotals(g)[i].1 >= y.1
    ensures forall v :: KeyFilter(TopTotals(g), TotalKey, v) <= KeyFilter(TotalsOf(g), TotalKey, v)
  {
    var ts := TotalsOf(g);
    var top := TopTotals(g);
    assert |ts| == |g.keys|;
    TopHighest(ts, TotalKey, TopCount);
    SortDescSorted(ts, TotalKey);
    TakeSorted(SortDesc(ts, TotalKey), TotalKey, TopCount);
    forall i, y | 0 <= i < |top| && y in multiset(ts) - multiset(top) ensures top[i].1 >= y.1 {
      assert TotalKey(top[i]) >= TotalKey(y);
    }
    forall v ensures KeyFilter(top, TotalKey, v) <= KeyFilter(ts, TotalKey, v) {
      TopStable(ts, TotalKey, TopCount, v);
    }
  }

  /** No group gets two bars: when no key is listed twice, no key is ranked twice. */
  lemma TopTotalsDistinct<K>(g: Groups<K>)
    requires KeysListed(g) && Distinct(g.keys)
    ensures forall i, j :: 0 <= i < j < |TopTotals(g)| ==> TopTotals(g)[i].0 != TopTotals(g)[j].0
  {
    var ts := TotalsOf(g);
    var top := TopTotals(g);
    assert multiset(top) <= multiset(ts) by {
      SortDescPermutes(ts, TotalKey);
      PrefixRest(SortDesc(ts, TotalKey), |top|);
    }
    SubmultisetDistinct(top, ts);
    forall i, j | 0 <= i < j < |top| ensures top[i].0 != top[j].0 {
      assert top[i] in multiset(top) && top[j] in multiset(top);
      var a :| 0 <= a < |ts| && ts[a] == top[i];
      var b :| 0 <= b < |ts| && ts[b] == top[j];
    }
  }
}
