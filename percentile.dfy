/**
 * The tail-latency pick at the end of ReceivingResults: the latency list is
 * sorted ascending and the element at index floor(n * pct / 100) is taken,
 * with no interpolation and no clamping.
 */
module Percentile {
  import opened Arrays

  /** Ascending, every pair compared. */
  ghost predicate Ascending(s: seq<nat>)
  {
    forall i, j :: 0 <= i < j < |s| ==> s[i] <= s[j]
  }

  /** Ascending, comparing neighbours only. */
  ghost predicate NeighboursAscending(s: seq<nat>)
  {
    forall i, j :: 0 <= i < j < |s| && j == i + 1 ==> s[i] <= s[j]
  }

  lemma {:induction false} NeighboursAscendingIsAscending(s: seq<nat>)
    requires NeighboursAscending(s)
    ensures Ascending(s)
  {
    if |s| > 1 {
      var t := s[..|s| - 1];
      assert NeighboursAscending(t) by {
        forall i, j | 0 <= i < j < |t| && j == i + 1
          ensures t[i] <= t[j]
        {
          assert t[i] == s[i] && t[j] == s[j];
        }
      }
      NeighboursAscendingIsAscending(t);
      forall i, j | 0 <= i < j < |s|
        ensures s[i] <= s[j]
      {
        if j < |s| - 1 {
          assert s[i] == t[i] && s[j] == t[j];
        } else if i < |s| - 2 {
          assert s[i] == t[i] && s[|s| - 2] == t[|s| - 2];
        }
      }
    }
  }

  /** sort.Sort on the latency list: sorts the array in place, ascending. */
  method SortLatencies(a: array<nat>)
    modifies a
    ensures Ascending(a[..])
    ensures multiset(a[..]) == multiset(old(a[..]))
  {
    for i := 0 to a.Length
      invariant forall k, l :: 0 <= k && l == k + 1 && l < i ==> a[k] <= a[l]
      invariant multiset(a[..]) == multiset(old(a[..]))
    {
      var j := i;
      while j > 0 && a[j - 1] > a[j]
        invariant 0 <= j <= i
        invariant forall k, l :: 0 <= k && l == k + 1 && l <= i && l != j ==> a[k] <= a[l]
        invariant 0 < j < i ==> a[j - 1] <= a[j + 1]
        invariant multiset(a[..]) == multiset(old(a[..]))
      {
        Swap(a, j - 1, j);
        j := j - 1;
      }
    }
    NeighboursAscendingIsAscending(a[..]);
  }

  /**
   * The index the pct-th percentile is read from: floor(n * pct / 100).
   * It is always inside the list, so no clamping is needed.
   */
  function RankIndex(n: nat, pct: nat): (i: nat)
    requires 0 < n && pct < 100
    ensures i < n
    ensures i * 100 <= n * pct < (i + 1) * 100
  {
    n * pct / 100
  }

  /** A larger percentile never reads from an earlier index. */
  lemma RankIndexMonotone(n: nat, p: nat, q: nat)
    requires 0 < n && p <= q < 100
    ensures RankIndex(n, p) <= RankIndex(n, q)
  {
    var d: nat := q - p;
    assert n * q == n * p + n * d;
    assert RankIndex(n, p) * 100 <= n * p;
    assert n * q < (RankIndex(n, q) + 1) * 100;
  }

  /** The pct-th percentile of the latency list (the list must be non-empty). */
  function Tp(all: seq<nat>, pct: nat): (v: nat)
    requires |all| > 0 && pct < 100
    ensures v in all
  {
    all[RankIndex(|all|, pct)]
  }

  /** The number of latencies at most v. */
  function CountAtMost(s: seq<nat>, v: nat): (c: nat)
    ensures c <= |s|
  {
    if s == [] then 0
    else CountAtMost(s[..|s| - 1], v) + (if s[|s| - 1] <= v then 1 else 0)
  }

  /** The number of latencies strictly below v. */
  function CountBelow(s: seq<nat>, v: nat): (c: nat)
    ensures c <= |s|
  {
    if s == [] then 0
    else CountBelow(s[..|s| - 1], v) + (if s[|s| - 1] < v then 1 else 0)
  }

  lemma {:induction false} CountAtMostAll(s: seq<nat>, v: nat)
    requires forall k :: 0 <= k < |s| ==> s[k] <= v
    ensures CountAtMost(s, v) == |s|
  {
    if s != [] {
      CountAtMostAll(s[..|s| - 1], v);
    }
  }

  /** In an ascending list, at least i + 1 elements are at most s[i] and at most i are below it. */
  lemma {:induction false} AscendingCounts(s: seq<nat>, i: nat)
    requires Ascending(s) && i < |s|
    ensures CountAtMost(s, s[i]) >= i + 1
    ensures CountBelow(s, s[i]) <= i
  {
    var t := s[..|s| - 1];
    assert Ascending(t);
    if i == |s| - 1 {
      CountAtMostAll(t, s[i]);
    } else {
      assert t[i] == s[i];
      AscendingCounts(t, i);
    }
  }

  /** More than pct percent of the latencies are at most v, and at most pct percent are below it. */
  predicate IsPercentile(s: seq<nat>, pct: nat, v: nat)
  {
    CountAtMost(s, v) * 100 > |s| * pct && CountBelow(s, v) * 100 <= |s| * pct
  }

  /** On an ascending list the pick is a percentile in that sense. */
  lemma TpIsPercentile(all: seq<nat>, pct: nat)
    requires |all| > 0 && pct < 100 && Ascending(all)
    ensures IsPercentile(all, pct, Tp(all, pct))
  {
    var i := RankIndex(|all|, pct);
    AscendingCounts(all, i);
  }

  /** On an ascending list a larger percentile is never smaller. */
  lemma TpMonotone(all: seq<nat>, p: nat, q: nat)
    requires |all| > 0 && p <= q < 100 && Ascending(all)
    ensures Tp(all, p) <= Tp(all, q)
  {
    RankIndexMonotone(|all|, p, q);
  }

  /** The three reported percentiles are ordered: tp90 <= tp95 <= tp99. */
  lemma TpOrdered(all: seq<nat>)
    requires |all| > 0 && Ascending(all)
    ensures Tp(all, 90) <= Tp(all, 95) <= Tp(all, 99)
  {
    TpMonotone(all, 90, 95);
    TpMonotone(all, 95, 99);
  }

  /** What the summary relies on: an ascending list gives ordered percentiles. */
  lemma ReportedPercentiles(all: seq<nat>)
    requires |all| > 0
    ensures Ascending(all) ==> Tp(all, 90) <= Tp(all, 95) <= Tp(all, 99)
    ensures Ascending(all) ==> IsPercentile(all, 90, Tp(all, 90)) && IsPercentile(all, 95, Tp(all, 95))
    ensures Ascending(all) ==> IsPercentile(all, 99, Tp(all, 99))
  {
    if Ascending(all) {
      TpOrdered(all);
      TpIsPercentile(all, 90);
      TpIsPercentile(all, 95);
      TpIsPercentile(all, 99);
    }
  }

  /** Four latencies of 10, 20, 30 and 40 ms: tp90, tp95 and tp99 all read the last one. */
  lemma FourLatencies()
    ensures Tp([10000000, 20000000, 30000000, 40000000], 90) == 40000000
    ensures Tp([10000000, 20000000, 30000000, 40000000], 95) == 40000000
    ensures Tp([10000000, 20000000, 30000000, 40000000], 99) == 40000000
  {
  }
}
