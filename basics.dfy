/** Small value types and sequence functions shared by the log analyzer model. */
module Basics {

  datatype Option<T> = None | Some(value: T)

  /** The last element of a non-empty sequence. */
  function Last<T>(s: seq<T>): T
    requires |s| > 0
  {
    s[|s| - 1]
  }

  /** All but the last element of a non-empty sequence. */
  function Init<T>(s: seq<T>): seq<T>
    requires |s| > 0
  {
    s[..|s| - 1]
  }

  /** Python's `sum(v)` over a list of durations, accumulated from the left. */
  function Sum(ds: seq<nat>): nat
  {
    if |ds| == 0 then 0 else Sum(Init(ds)) + Last(ds)
  }

  /** Python's `max(v)`: an element of the list that no element exceeds. */
  function MaxOf(ds: seq<nat>): (m: nat)
    requires |ds| > 0
    ensures m in ds
    ensures forall i :: 0 <= i < |ds| ==> ds[i] <= m
  {
    if |ds| == 1 then ds[0]
    else
      var m' := MaxOf(Init(ds));
      assert forall i :: 0 <= i < |ds| - 1 ==> ds[i] == Init(ds)[i];
      if Last(ds) > m' then Last(ds) else m'
  }

  /** Every duration is at most the sum of the list, so a group's maximum never exceeds its total. */
  lemma {:induction false} ElementAtMostSum(ds: seq<nat>, i: nat)
    requires i < |ds|
    ensures ds[i] <= Sum(ds)
  {
    if i < |ds| - 1 {
      ElementAtMostSum(Init(ds), i);
    }
  }

  lemma MaxAtMostSum(ds: seq<nat>)
    requires |ds| > 0
    ensures MaxOf(ds) <= Sum(ds)
  {
    var m := MaxOf(ds);
    var i :| 0 <= i < |ds| && ds[i] == m;
    ElementAtMostSum(ds, i);
  }

  /** A list whose elements are all at most `m` sums to at most `|ds| * m`. */
  lemma {:induction false} SumAtMostCountTimes(ds: seq<nat>, m: nat)
    requires forall i :: 0 <= i < |ds| ==> ds[i] <= m
    ensures Sum(ds) <= |ds| * m
  {
    if |ds| > 0 {
      SumAtMostCountTimes(Init(ds), m);
    }
  }

  /** `a` can be obtained from `b` by deleting elements, keeping the order of the rest. */
  predicate IsSubsequence<T(==)>(a: seq<T>, b: seq<T>)
    decreases |b|
  {
    || |a| == 0
    || (&& |b| > 0
        && (|| (Last(a) == Last(b) && IsSubsequence(Init(a), Init(b)))
            || IsSubsequence(a, Init(b))))
  }

  lemma SubsequenceExtend<T>(a: seq<T>, b: seq<T>, x: T)
    requires IsSubsequence(a, b)
    ensures IsSubsequence(a, b + [x])
    ensures IsSubsequence(a + [x], b + [x])
  {
    assert Init(b + [x]) == b;
    assert Init(a + [x]) == a;
  }

  /** No two positions of `s` hold the same value. */
  predicate Distinct<T(==)>(s: seq<T>) {
    forall i, j :: 0 <= i < j < |s| ==> s[i] != s[j]
  }

  /** A value found at two positions of a list occurs in it at least twice. */
  lemma RepeatCount<T>(s: seq<T>, i: nat, j: nat)
    requires i < j < |s|
    ensures s[i] == s[j] ==> multiset(s)[s[i]] >= 2
  {
    assert s == s[..j] + s[j..];
    assert s[i] == s[..j][i];
    assert s[j] == s[j..][0];
  }

  /** In a list without repeats every value occurs at most once. */
  lemma {:induction false} DistinctCount<T>(s: seq<T>, x: T)
    requires Distinct(s)
    ensures multiset(s)[x] <= 1
  {
    if |s| > 0 {
      assert s == Init(s) + [Last(s)];
      assert forall i :: 0 <= i < |s| - 1 ==> Init(s)[i] == s[i];
      DistinctCount(Init(s), x);
      if x == Last(s) {
        assert x !in Init(s);
      }
    }
  }

  /** Whatever is drawn, without repeats, from a list without repeats has no repeats itself. */
  lemma SubmultisetDistinct<T>(a: seq<T>, b: seq<T>)
    requires multiset(a) <= multiset(b) && Distinct(b)
    ensures Distinct(a)
  {
    forall i, j | 0 <= i < j < |a| ensures a[i] != a[j] {
      RepeatCount(a, i, j);
      DistinctCount(b, a[i]);
    }
  }
}
