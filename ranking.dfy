/**
  Python's `sorted(items, key=..., reverse=True)` and the slice `[:n]` that follows it
  (debug.py:101, 145, 151). The sort is stable even with `reverse=True`: items whose keys
  are equal keep their input order. Keys are real so that totals, counts, maxima and exact
  averages can all be ranked by the same definition.
*/
module Ranking {
  import opened Basics

  /** `key` never increases along `s`. */
  predicate SortedDesc<T>(s: seq<T>, key: T -> real) {
    forall i, j :: 0 <= i < j < |s| ==> key(s[i]) >= key(s[j])
  }

  /** The items of `s` whose key is `v`, in order. */
  function KeyFilter<T>(s: seq<T>, key: T -> real, v: real): seq<T> {
    if |s| == 0 then []
    else if key(Last(s)) == v then KeyFilter(Init(s), key, v) + [Last(s)]
    else KeyFilter(Init(s), key, v)
  }

  /** Where `x` goes in `t`: after every trailing item whose key is below its own is skipped. */
  function InsertPos<T>(t: seq<T>, x: T, key: T -> real): (p: nat)
    ensures p <= |t|
  {
    if |t| == 0 || key(Last(t)) >= key(x) then |t| else InsertPos(Init(t), x, key)
  }

  /** `x` placed after the items of `t` whose key is at least its own. */
  function Insert<T>(t: seq<T>, x: T, key: T -> real): seq<T> {
    if |t| == 0 || key(Last(t)) >= key(x) then t + [x]
    else Insert(Init(t), x, key) + [Last(t)]
  }

  /** The stable descending sort, by insertion from the front of `s`. */
  function SortDesc<T>(s: seq<T>, key: T -> real): seq<T> {
    if |s| == 0 then [] else Insert(SortDesc(Init(s), key), Last(s), key)
  }

  /** `s[:n]`: the first `n` items, or all of them when there are fewer. */
  function Take<T>(s: seq<T>, n: nat): (r: seq<T>)
    ensures |r| == if n < |s| then n else |s|
    ensures r == s[..|r|]
  {
    if n < |s| then s[..n] else s
  }

  /** Insertion splits `t` at `InsertPos`: everything after `x` has a smaller key. */
  lemma {:induction false} InsertAt<T>(t: seq<T>, x: T, key: T -> real)
    ensures Insert(t, x, key) == t[..InsertPos(t, x, key)] + [x] + t[InsertPos(t, x, key)..]
    ensures forall i :: InsertPos(t, x, key) <= i < |t| ==> key(t[i]) < key(x)
    ensures InsertPos(t, x, key) > 0 ==> key(t[InsertPos(t, x, key) - 1]) >= key(x)
  {
    if |t| > 0 && key(Last(t)) < key(x) {
      InsertAt(Init(t), x, key);
      var p := InsertPos(t, x, key);
      assert t == Init(t) + [Last(t)];
      assert Init(t)[..p] == t[..p];
      assert Init(t)[p..] + [Last(t)] == t[p..];
    }
  }

  lemma InsertPermutes<T>(t: seq<T>, x: T, key: T -> real)
    ensures multiset(Insert(t, x, key)) == multiset(t) + multiset{x}
  {
    InsertAt(t, x, key);
    SplitPermutes(t, InsertPos(t, x, key), x);
  }

  lemma SplitPermutes<T>(t: seq<T>, p: nat, x: T)
    requires p <= |t|
    ensures multiset(t[..p] + [x] + t[p..]) == multiset(t) + multiset{x}
  {
    assert t == t[..p] + t[p..];
  }

  lemma InsertSorted<T>(t: seq<T>, x: T, key: T -> real)
    requires SortedDesc(t, key)
    ensures SortedDesc(Insert(t, x, key), key)
  {
    InsertAt(t, x, key);
    var p := InsertPos(t, x, key);
    var r := Insert(t, x, key);
    forall i, j | 0 <= i < j < |r| ensures key(r[i]) >= key(r[j]) {
      if i < p && j == p {
        assert key(t[i]) >= key(t[p - 1]);
      } else if i == p && j > p {
        assert r[j] == t[j - 1];
      } else if i > p {
        assert r[i] == t[i - 1] && r[j] == t[j - 1];
      }
    }
  }

  lemma {:induction false} KeyFilterAppend<T>(a: seq<T>, b: seq<T>, key: T -> real, v: real)
    ensures KeyFilter(a + b, key, v) == KeyFilter(a, key, v) + KeyFilter(b, key, v)
  {
    if |b| > 0 {
      assert Init(a + b) == a + Init(b) && Last(a + b) == Last(b);
      KeyFilterAppend(a, Init(b), key, v);
    } else {
      assert a + b == a;
    }
  }

  /** Inserting `x` adds it behind every item of `t` that shares its key. */
  lemma {:induction false} InsertStable<T>(t: seq<T>, x: T, key: T -> real, v: real)
    ensures KeyFilter(Insert(t, x, key), key, v) == KeyFilter(t + [x], key, v)
  {
    if |t| > 0 && key(Last(t)) < key(x) {
      InsertStable(Init(t), x, key, v);
      var r0 := Insert(Init(t), x, key);
      KeyFilterAppend(r0, [Last(t)], key, v);
      KeyFilterAppend(Init(t), [x], key, v);
      KeyFilterAppend(Init(t), [Last(t)], key, v);
      KeyFilterAppend(t, [x], key, v);
      assert Init(t) + [Last(t)] == t;
      assert Init([x]) == [] && Init([Last(t)]) == [];
    }
  }

  /** The result is ordered by descending key. */
  lemma {:induction false} SortDescSorted<T>(s: seq<T>, key: T -> real)
    ensures SortedDesc(SortDesc(s, key), key)
  {
    if |s| > 0 {
      SortDescSorted(Init(s), key);
      InsertSorted(SortDesc(Init(s), key), Last(s), key);
    }
  }

  /** The result is a rearrangement of the input. */
  lemma {:induction false} SortDescPermutes<T>(s: seq<T>, key: T -> real)
    ensures multiset(SortDesc(s, key)) == multiset(s)
  {
    if |s| > 0 {
      SortDescPermutes(Init(s), key);
      InsertPermutes(SortDesc(Init(s), key), Last(s), key);
      assert s == Init(s) + [Last(s)];
    }
  }

  /** The sort is stable: items with equal keys keep their input order. */
  lemma {:induction false} SortDescStable<T>(s: seq<T>, key: T -> real, v: real)
    ensures KeyFilter(SortDesc(s, key), key, v) == KeyFilter(s, key, v)
  {
    if |s| > 0 {
      var t := SortDesc(Init(s), key);
      SortDescStable(Init(s), key, v);
      InsertStable(t, Last(s), key, v);
      KeyFilterAppend(t, [Last(s)], key, v);
      KeyFilterAppend(Init(s), [Last(s)], key, v);
      assert Init(s) + [Last(s)] == s;
      assert Init([Last(s)]) == [];
    }
  }

  lemma {:induction false} KeyFilterMembers<T>(s: seq<T>, key: T -> real, v: real, x: T)
    ensures x in KeyFilter(s, key, v) <==> x in s && key(x) == v
  {
    if |s| > 0 {
      KeyFilterMembers(Init(s), key, v, x);
      assert s == Init(s) + [Last(s)];
    }
  }

  /** The last item of a descending sequence has its smallest key. */
  lemma LastIsSmallest<T>(r: seq<T>, key: T -> real, y: T)
    requires SortedDesc(r, key) && |r| > 0 && y in r
    ensures key(Last(r)) <= key(y)
  {
    var i :| 0 <= i < |r| && r[i] == y;
    if i < |r| - 1 {
      assert key(r[i]) >= key(r[|r| - 1]);
    }
  }

  /** Sequences with the same items per key are both empty or both not. */
  lemma SameFiltersBothEmpty<T>(r: seq<T>, r': seq<T>, key: T -> real)
    requires forall v :: KeyFilter(r, key, v) == KeyFilter(r', key, v)
    requires |r| == 0
    ensures |r'| == 0
  {
    if |r'| > 0 {
      var y := Last(r');
      KeyFilterMembers(r, key, key(y), y);
      KeyFilterMembers(r', key, key(y), y);
    }
  }

  /** Two descending sequences with the same items per key end with the same item. */
  lemma SameFiltersSameLast<T>(r: seq<T>, r': seq<T>, key: T -> real)
    requires SortedDesc(r, key) && SortedDesc(r', key) && |r| > 0 && |r'| > 0
    requires forall v :: KeyFilter(r, key, v) == KeyFilter(r', key, v)
    ensures Last(r) == Last(r')
  {
    var v1, v2 := key(Last(r)), key(Last(r'));
    assert Last(r') in KeyFilter(r', key, v2);
    KeyFilterMembers(r, key, v2, Last(r'));
    assert Last(r) in KeyFilter(r, key, v1);
    KeyFilterMembers(r', key, v1, Last(r));
    LastIsSmallest(r, key, Last(r'));
    LastIsSmallest(r', key, Last(r));
    assert Last(r) == Last(KeyFilter(r, key, v1));
    assert Last(r') == Last(KeyFilter(r', key, v1));
  }

  /** Dropping the same last item keeps the items per key equal. */
  lemma SameFiltersOfInit<T>(r: seq<T>, r': seq<T>, key: T -> real)
    requires |r| > 0 && |r'| > 0 && Last(r) == Last(r')
    requires forall v :: KeyFilter(r, key, v) == KeyFilter(r', key, v)
    ensures forall v :: KeyFilter(Init(r), key, v) == KeyFilter(Init(r'), key, v)
  {
    forall v ensures KeyFilter(Init(r), key, v) == KeyFilter(Init(r'), key, v) {
      var f, f' := KeyFilter(r, key, v), KeyFilter(r', key, v);
      assert f == f';
      if key(Last(r)) == v {
        assert Init(f) == KeyFilter(Init(r), key, v) && Init(f') == KeyFilter(Init(r'), key, v);
      }
    }
  }

  lemma SortedInit<T>(r: seq<T>, key: T -> real)
    requires SortedDesc(r, key) && |r| > 0
    ensures SortedDesc(Init(r), key)
  {
  }

  /**
    Sorting is determined by its two properties: two sequences ordered by descending key
    that hold the same items per key, in the same order, are equal.
  */
  lemma {:induction false} SortedStableUnique<T>(r: seq<T>, r': seq<T>, key: T -> real)
    requires SortedDesc(r, key) && SortedDesc(r', key)
    requires forall v :: KeyFilter(r, key, v) == KeyFilter(r', key, v)
    ensures r == r'
    decreases |r|
  {
    if |r| == 0 {
      SameFiltersBothEmpty(r, r', key);
    } else if |r'| == 0 {
      SameFiltersBothEmpty(r', r, key);
    } else {
      SameFiltersSameLast(r, r', key);
      SameFiltersOfInit(r, r', key);
      SortedInit(r, key);
      SortedInit(r', key);
      SortedStableUnique(Init(r), Init(r'), key);
      assert r == Init(r) + [Last(r)] && r' == Init(r') + [Last(r')];
    }
  }

  /** Any stable descending ordering of `s` is the one `SortDesc` computes. */
  lemma SortDescCharacterized<T>(s: seq<T>, r: seq<T>, key: T -> real)
    requires SortedDesc(r, key)
    requires forall v :: KeyFilter(r, key, v) == KeyFilter(s, key, v)
    ensures r == SortDesc(s, key)
  {
    SortDescSorted(s, key);
    forall v ensures KeyFilter(r, key, v) == KeyFilter(SortDesc(s, key), key, v) {
      SortDescStable(s, key, v);
    }
    SortedStableUnique(r, SortDesc(s, key), key);
  }

  /** What a prefix leaves of a sequence is the rest of it. */
  lemma PrefixRest<T>(r: seq<T>, k: nat)
    requires k <= |r|
    ensures multiset(r[..k]) <= multiset(r)
    ensures multiset(r) - multiset(r[..k]) == multiset(r[k..])
  {
    assert r == r[..k] + r[k..];
  }

  /** In a descending sequence, every item of a prefix has a key at least that of every item after it. */
  lemma PrefixHighest<T>(r: seq<T>, key: T -> real, k: nat)
    requires SortedDesc(r, key) && k <= |r|
    ensures forall i, y :: 0 <= i < k && y in multiset(r[k..]) ==> key(r[i]) >= key(y)
  {
    forall i, y | 0 <= i < k && y in multiset(r[k..]) ensures key(r[i]) >= key(y) {
      assert y in r[k..];
      var j :| 0 <= j < |r| - k && r[k..][j] == y;
      assert r[k + j] == y;
    }
  }

  /**
    The first `n` of the sorted items: `min(n, |s|)` items of `s`, each with a key at
    least that of every item of `s` left out.
  */
  lemma TopHighest<T>(s: seq<T>, key: T -> real, n: nat)
    ensures |Take(SortDesc(s, key), n)| == if n < |s| then n else |s|
    ensures multiset(Take(SortDesc(s, key), n)) <= multiset(s)
    ensures forall i, y ::
      0 <= i < |Take(SortDesc(s, key), n)| && y in multiset(s) - multiset(Take(SortDesc(s, key), n)) ==>
        key(Take(SortDesc(s, key), n)[i]) >= key(y)
  {
    var r := SortDesc(s, key);
    var t := Take(r, n);
    SortDescPermutes(s, key);
    SortDescSorted(s, key);
    assert |r| == |s| by {
      assert |multiset(r)| == |multiset(s)|;
    }
    PrefixRest(r, |t|);
    PrefixHighest(r, key, |t|);
    assert forall i :: 0 <= i < |t| ==> t[i] == r[i];
  }

  /** Cutting the sorted items keeps, for each key, a leading part of that key's items in input order. */
  lemma TopStable<T>(s: seq<T>, key: T -> real, n: nat, v: real)
    ensures KeyFilter(Take(SortDesc(s, key), n), key, v) <= KeyFilter(s, key, v)
  {
    var r := SortDesc(s, key);
    var t := Take(r, n);
    assert r == t + r[|t|..];
    KeyFilterAppend(t, r[|t|..], key, v);
    SortDescStable(s, key, v);
  }

  /** A prefix of a descending sequence is descending. */
  lemma TakeSorted<T>(r: seq<T>, key: T -> real, n: nat)
    requires SortedDesc(r, key)
    ensures SortedDesc(Take(r, n), key)
  {
  }
}
