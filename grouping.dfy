/**
  The grouping loop of debug.py:53-58: the durations of the filtered records are appended
  to `ed[event]` and to `sd[session]`, two `defaultdict(list)`s whose keys keep insertion
  order; then `avg` maps each event to the mean of its list.
*/
module Grouping {
  import opened Basics
  import opened Records

  /** An insertion-ordered dictionary of duration lists: `keys` in insertion order, `lists` by key. */
  datatype Groups<K> = Groups(keys: seq<K>, lists: map<K, seq<nat>>)

  /** Keys are distinct and are exactly the keys of the map. */
  ghost predicate Valid<K(!new)>(g: Groups<K>) {
    && Distinct(g.keys)
    && (forall k :: k in g.lists <==> k in g.keys)
  }

  /** `g[k].append(d)` on a `defaultdict(list)`: a missing key is created at the end. */
  function Add<K>(g: Groups<K>, k: K, d: nat): Groups<K> {
    if k in g.lists then Groups(g.keys, g.lists[k := g.lists[k] + [d]])
    else Groups(g.keys + [k], g.lists[k := [d]])
  }

  /** The dictionary after appending every `(key, duration)` pair of `ps` in order. */
  function GroupBy<K>(ps: seq<(K, nat)>): Groups<K> {
    if |ps| == 0 then Groups([], map[]) else Add(GroupBy(Init(ps)), Last(ps).0, Last(ps).1)
  }

  /** The keys that occur in `ps`. */
  function KeySet<K>(ps: seq<(K, nat)>): set<K> {
    set p | p in ps :: p.0
  }

  /** The durations paired with `k`, in arrival order: the reference a group is proved against. */
  function DurationsOf<K(==)>(ps: seq<(K, nat)>, k: K): seq<nat> {
    if |ps| == 0 then []
    else if Last(ps).0 == k then DurationsOf(Init(ps), k) + [Last(ps).1]
    else DurationsOf(Init(ps), k)
  }

  /** Where `k` first occurs in `ps`. */
  function FirstIndex<K(==)>(ps: seq<(K, nat)>, k: K): (i: nat)
    requires k in KeySet(ps)
    ensures i < |ps| && ps[i].0 == k
    ensures forall j :: 0 <= j < i ==> ps[j].0 != k
  {
    assert ps == Init(ps) + [Last(ps)];
    if k in KeySet(Init(ps)) then FirstIndex(Init(ps), k) else |ps| - 1
  }

  /** The `(event, duration)` pairs of the records, in order. */
  function EventPairs(es: seq<EventRecord>): seq<(string, nat)>
  {
    seq(|es|, i requires 0 <= i < |es| => (es[i].event, es[i].duration))
  }

  /** The `(session, duration)` pairs of the records, in order. */
  function SessionPairs(es: seq<EventRecord>): seq<(nat, nat)>
  {
    seq(|es|, i requires 0 <= i < |es| => (es[i].session, es[i].duration))
  }

  /**
    The grouping loop (debug.py:53-57): one pass over the filtered records, appending each
    duration under its event and under its session.
  */
  method GroupFiltered(filtered: seq<EventRecord>) returns (ed: Groups<string>, sd: Groups<nat>)
    ensures ed == GroupBy(EventPairs(filtered))
    ensures sd == GroupBy(SessionPairs(filtered))
  {
    ed := Groups([], map[]);
    sd := Groups([], map[]);
    for i := 0 to |filtered|
      invariant ed == GroupBy(EventPairs(filtered[..i]))
      invariant sd == GroupBy(SessionPairs(filtered[..i]))
    {
      var e := filtered[i];
      assert Init(EventPairs(filtered[..i + 1])) == EventPairs(filtered[..i]);
      assert Init(SessionPairs(filtered[..i + 1])) == SessionPairs(filtered[..i]);
      if e.event in ed.lists {
        ed := ed.(lists := ed.lists[e.event := ed.lists[e.event] + [e.duration]]);
      } else {
        ed := Groups(ed.keys + [e.event], ed.lists[e.event := [e.duration]]);
      }
      if e.session in sd.lists {
        sd := sd.(lists := sd.lists[e.session := sd.lists[e.session] + [e.duration]]);
      } else {
        sd := Groups(sd.keys + [e.session], sd.lists[e.session := [e.duration]]);
      }
    }
    assert filtered[..|filtered|] == filtered;
  }

  /** The dictionary's keys are distinct and are exactly the keys of its lists. */
  lemma {:induction false} GroupByValid<K(!new)>(ps: seq<(K, nat)>)
    ensures Valid(GroupBy(ps))
  {
    if |ps| > 0 {
      GroupByValid(Init(ps));
    }
  }

  /** The dictionary has a key exactly for the keys that occur in the pairs. */
  lemma {:induction false} GroupByKeys<K>(ps: seq<(K, nat)>)
    ensures GroupBy(ps).lists.Keys == KeySet(ps)
  {
    if |ps| > 0 {
      GroupByKeys(Init(ps));
      assert ps == Init(ps) + [Last(ps)];
      assert KeySet(ps) == KeySet(Init(ps)) + {Last(ps).0};
    }
  }

  /** Each group holds exactly the durations of its key, in arrival order. */
  lemma {:induction false} GroupByLists<K>(ps: seq<(K, nat)>, k: K)
    requires k in GroupBy(ps).lists
    ensures GroupBy(ps).lists[k] == DurationsOf(ps, k)
  {
    var prev := GroupBy(Init(ps));
    if k in prev.lists {
      GroupByLists(Init(ps), k);
    } else {
      GroupByKeys(Init(ps));
      DurationsOfAbsent(Init(ps), k);
    }
  }

  lemma {:induction false} DurationsOfAbsent<K>(ps: seq<(K, nat)>, k: K)
    requires k !in KeySet(ps)
    ensures DurationsOf(ps, k) == []
  {
    if |ps| > 0 {
      assert Last(ps) in ps;
      assert KeySet(Init(ps)) <= KeySet(ps) by {
        assert forall p :: p in Init(ps) ==> p in ps;
      }
      DurationsOfAbsent(Init(ps), k);
    }
  }

  /** Some pair means some group. */
  lemma {:induction false} GroupByHasKeys<K>(ps: seq<(K, nat)>)
    requires |ps| > 0
    ensures |GroupBy(ps).keys| > 0
  {
    if |ps| > 1 {
      GroupByHasKeys(Init(ps));
    }
  }

  /** No group is empty, so every average is defined. */
  lemma {:induction false} GroupByNonEmpty<K>(ps: seq<(K, nat)>, k: K)
    requires k in GroupBy(ps).lists
    ensures |GroupBy(ps).lists[k]| > 0
  {
    if |ps| > 0 && k in GroupBy(Init(ps)).lists {
      GroupByNonEmpty(Init(ps), k);
    }
  }

  /** Keys are listed in order of first occurrence, the iteration order of a Python dict. */
  lemma {:induction false} GroupByOrder<K(!new)>(ps: seq<(K, nat)>)
    ensures GroupBy(ps).lists.Keys == KeySet(ps)
    ensures forall k :: k in GroupBy(ps).keys ==> k in KeySet(ps)
    ensures forall i, j :: 0 <= i < j < |GroupBy(ps).keys| ==>
      FirstIndex(ps, GroupBy(ps).keys[i]) < FirstIndex(ps, GroupBy(ps).keys[j])
  {
    GroupByKeys(ps);
    GroupByValid(ps);
    if |ps| > 0 {
      GroupByOrder(Init(ps));
      GroupByKeys(Init(ps));
      GroupByValid(Init(ps));
      var prev := GroupBy(Init(ps));
      var g := GroupBy(ps);
      assert ps == Init(ps) + [Last(ps)];
      forall k | k in KeySet(Init(ps)) ensures FirstIndex(ps, k) == FirstIndex(Init(ps), k) {
      }
      forall i, j | 0 <= i < j < |g.keys| ensures FirstIndex(ps, g.keys[i]) < FirstIndex(ps, g.keys[j]) {
        if j < |prev.keys| {
          assert g.keys[i] == prev.keys[i] && g.keys[j] == prev.keys[j];
        } else {
          assert g.keys[i] == prev.keys[i] && g.keys[j] == Last(ps).0;
          assert g.keys[j] !in KeySet(Init(ps));
        }
      }
    }
  }

  /** The number of durations held under `keys`. */
  function TotalSize<K>(keys: seq<K>, lists: map<K, seq<nat>>): nat
    requires forall k :: k in keys ==> k in lists
  {
    if |keys| == 0 then 0 else TotalSize(Init(keys), lists) + |lists[Last(keys)]|
  }

  lemma {:induction false} TotalSizeGrow<K>(keys: seq<K>, lists: map<K, seq<nat>>, k: K, d: nat)
    requires forall x :: x in keys ==> x in lists
    requires forall i, j :: 0 <= i < j < |keys| ==> keys[i] != keys[j]
    requires k in lists
    ensures TotalSize(keys, lists[k := lists[k] + [d]]) == TotalSize(keys, lists) + (if k in keys then 1 else 0)
  {
    if |keys| > 0 {
      assert forall x :: x in Init(keys) ==> x in keys;
      TotalSizeGrow(Init(keys), lists, k, d);
      assert k in keys <==> k in Init(keys) || k == Last(keys) by {
        assert keys == Init(keys) + [Last(keys)];
      }
      if k == Last(keys) {
        assert k !in Init(keys);
      }
    }
  }

  lemma {:induction false} TotalSizeNew<K>(keys: seq<K>, lists: map<K, seq<nat>>, k: K, ds: seq<nat>)
    requires forall x :: x in keys ==> x in lists
    requires k !in keys
    ensures TotalSize(keys, lists[k := ds]) == TotalSize(keys, lists)
  {
    if |keys| > 0 {
      assert forall x :: x in Init(keys) ==> x in keys;
      TotalSizeNew(Init(keys), lists, k, ds);
    }
  }

  /**
    The grouping is a partition: every pair lands in exactly one group, so the group sizes
    add up to the number of pairs.
  */
  lemma {:induction false} GroupByPartition<K(!new)>(ps: seq<(K, nat)>)
    ensures Valid(GroupBy(ps))
    ensures TotalSize(GroupBy(ps).keys, GroupBy(ps).lists) == |ps|
  {
    GroupByValid(ps);
    if |ps| > 0 {
      GroupByPartition(Init(ps));
      var prev := GroupBy(Init(ps));
      var (k, d) := Last(ps);
      if k in prev.lists {
        TotalSizeGrow(prev.keys, prev.lists, k, d);
      } else {
        TotalSizeNew(prev.keys, prev.lists, k, [d]);
        assert Init(prev.keys + [k]) == prev.keys;
      }
    }
  }

  /** `avg[k]`: the exact mean of a non-empty group (debug.py:58). */
  function Mean(ds: seq<nat>): (m: real)
    requires |ds| > 0
    ensures m * (|ds| as real) == Sum(ds) as real
  {
    Sum(ds) as real / |ds| as real
  }

  /** The mean of a group lies between 0 and its maximum. */
  lemma MeanAtMostMax(ds: seq<nat>)
    requires |ds| > 0
    ensures 0.0 <= Mean(ds) <= MaxOf(ds) as real
  {
    var n, t, m := |ds|, Sum(ds), MaxOf(ds);
    assert t <= n * m by {
      SumAtMostCountTimes(ds, m);
    }
    QuotientBound(n, t, m);
  }

  lemma QuotientBound(n: nat, t: nat, m: nat)
    requires n > 0 && t <= n * m
    ensures 0.0 <= t as real / n as real <= m as real
  {
    var a := t as real / n as real;
    assert a * (n as real) == t as real;
    assert (t as real) <= (n as real) * (m as real);
  }

  /** Every filtered record's event has a non-empty group in `ed`, so `avg[e["event"]]` exists. */
  lemma AverageDefined(filtered: seq<EventRecord>, i: nat)
    requires i < |filtered|
    ensures filtered[i].event in GroupBy(EventPairs(filtered)).lists
    ensures |GroupBy(EventPairs(filtered)).lists[filtered[i].event]| > 0
  {
    var ps := EventPairs(filtered);
    GroupByKeys(ps);
    assert ps[i] in ps;
    GroupByNonEmpty(ps, filtered[i].event);
  }
}
