/**
 * The administrator's dashboard: the headline figures, and the best-selling packages with a
 * bar each, drawn from the sales counters the administrator service builds.
 */
module Dashboard {
  import opened Wrappers
  import opened Seqs
  import opened AdminService

  /** `stats?.totalUsers || 0` and its siblings: a figure that is missing shows as 0. */
  function DisplayCount(figure: Option<int>): (shown: int)
    ensures figure.None? ==> shown == 0
    ensures figure.Some? ==> shown == figure.value
  {
    figure.GetOr(0)
  }

  /** One line of the ranking: its 1-based rank, the package name and its number of sales. */
  datatype RankedPackage = RankedPackage(rank: nat, name: string, count: int)

  function Min(a: nat, b: nat): nat
  {
    if a <= b then a else b
  }

  /** The counters a ranking shows, as (name, count) entries of the table. */
  function Lines(r: seq<RankedPackage>): seq<(string, int)>
  {
    seq(|r|, i requires 0 <= i < |r| => (r[i].name, r[i].count))
  }

  /**
   * `Object.entries(packageCount).sort((a, b) => b[1] - a[1]).slice(0, 5).map(...)`: the
   * counters, most sales first, cut to five and numbered from 1. Each counter is shown at most
   * once, and all of them when there are five or fewer.
   */
  function TopPackages(packageCount: Table): (r: seq<RankedPackage>)
    ensures |r| == Min(5, |packageCount|)
    ensures forall i :: 0 <= i < |r| ==> r[i].rank == i + 1
    ensures forall i :: 0 <= i < |r| ==> (r[i].name, r[i].count) in packageCount
    ensures forall i, j :: 0 <= i < j < |r| ==> r[i].count >= r[j].count
    ensures multiset(Lines(r)) <= multiset(packageCount)
    ensures |packageCount| <= 5 ==> multiset(Lines(r)) == multiset(packageCount)
  {
    var top := SortBy(packageCount, (e: (string, int)) => -e.1)[..Min(5, |packageCount|)];
    TopCounters(packageCount);
    Numbered(top)
  }

  /** The first five counters by descending count are counters of the table, each at most once. */
  lemma TopCounters(packageCount: Table)
    ensures var top := SortBy(packageCount, (e: (string, int)) => -e.1)[..Min(5, |packageCount|)];
            && (forall i :: 0 <= i < |top| ==> top[i] in packageCount)
            && (forall i, j :: 0 <= i < j < |top| ==> top[i].1 >= top[j].1)
            && multiset(top) <= multiset(packageCount)
            && (|packageCount| <= 5 ==> multiset(top) == multiset(packageCount))
  {
    var key := (e: (string, int)) => -e.1;
    var sorted := SortBy(packageCount, key);
    var top := sorted[..Min(5, |packageCount|)];
    forall i | 0 <= i < |top| ensures top[i] in packageCount {
      SortByMembers(packageCount, key, top[i]);
    }
    forall i, j | 0 <= i < j < |top| ensures top[i].1 >= top[j].1 {
      assert key(sorted[i]) <= key(sorted[j]);
    }
    PrefixWithin(sorted, |top|);
  }

  /** The entries numbered from 1, in order. */
  function Numbered(top: seq<(string, int)>): (r: seq<RankedPackage>)
    ensures |r| == |top|
    ensures forall i :: 0 <= i < |r| ==> r[i] == RankedPackage(i + 1, top[i].0, top[i].1)
    ensures Lines(r) == top
  {
    seq(|top|, i requires 0 <= i < |top| => RankedPackage(i + 1, top[i].0, top[i].1))
  }

  /** A prefix holds no more of any element than the whole, and the full prefix is the whole. */
  lemma PrefixWithin<T>(s: seq<T>, k: nat)
    requires k <= |s|
    ensures multiset(s[..k]) <= multiset(s)
    ensures k == |s| ==> s[..k] == s
  {
    assert s == s[..k] + s[k..];
  }

  /**
   * The first line of the ranking is the best seller, and no counter left out of the ranking
   * sold more than the last line shown.
   */
  lemma {:induction false} TopPackagesAreTheBest(packageCount: Table)
    requires packageCount != []
    ensures forall e :: e in packageCount ==> e.1 <= TopPackages(packageCount)[0].count
    ensures var r := TopPackages(packageCount);
            forall e :: e in packageCount && (forall i :: 0 <= i < |r| ==> r[i].name != e.0) ==> e.1 <= r[|r| - 1].count
  {
    var key := (e: (string, int)) => -e.1;
    var sorted := SortBy(packageCount, key);
    var r := TopPackages(packageCount);
    var k := |r|;
    assert forall i :: 0 <= i < k ==> r[i].name == sorted[i].0 && r[i].count == sorted[i].1;
    forall e | e in packageCount
      ensures e in sorted
    {
      SortByMembers(packageCount, key, e);
    }
    SortedPrefixBounds(sorted, k);
  }

  /**
   * In a list sorted by descending count, the head has the largest count, and an entry whose
   * name is not among the first `k` sold no more than the `k`-th.
   */
  lemma SortedPrefixBounds(sorted: Table, k: nat)
    requires 0 < k <= |sorted|
    requires SortedBy(sorted, (e: (string, int)) => -e.1)
    ensures forall e :: e in sorted ==> e.1 <= sorted[0].1
    ensures forall e :: e in sorted && (forall i :: 0 <= i < k ==> sorted[i].0 != e.0) ==> e.1 <= sorted[k - 1].1
  {
    var key := (e: (string, int)) => -e.1;
    forall e | e in sorted
      ensures e.1 <= sorted[0].1
      ensures (forall i :: 0 <= i < k ==> sorted[i].0 != e.0) ==> e.1 <= sorted[k - 1].1
    {
      var j :| 0 <= j < |sorted| && sorted[j] == e;
      assert key(sorted[0]) <= key(sorted[j]);
      if j >= k {
        assert key(sorted[k - 1]) <= key(sorted[j]);
      }
    }
  }

  /**
   * The bar of a ranked package, as written: its count over the first counter's value
   * (`Object.values(packageCount)[0]`), times 100.
   */
  function BarPercentAsWritten(count: int, packageCount: Table): (width: real)
    requires packageCount != [] && packageCount[0].1 > 0
    ensures count >= 0 ==> width >= 0.0
  {
    count as real / packageCount[0].1 as real * 100.0
  }

  /**
   * The first counter is the package that sold first, not the best seller, so a bar can be
   * wider than the whole track: with one sale of `A` then three of `B`, `B`'s bar is 300%.
   */
  lemma BarOverflowsTrack()
    ensures BarPercentAsWritten(3, [("A", 1), ("B", 3)]) == 300.0
    ensures exists r :: r in TopPackages([("A", 1), ("B", 3)]) && BarPercentAsWritten(r.count, [("A", 1), ("B", 3)]) > 100.0
  {
    var t: Table := [("A", 1), ("B", 3)];
    var r := TopPackages(t);
    assert ("B", 3) in t;
    assert r[0].count == 3 by {
      assert (r[0].name, r[0].count) in t && (r[1].name, r[1].count) in t;
    }
    assert r[0] in r;
  }

  /** The largest counter value, 0 for no counters. */
  function MaxCount(packageCount: Table): (m: int)
    ensures forall i :: 0 <= i < |packageCount| ==> packageCount[i].1 <= m
    ensures packageCount != [] ==> exists i :: 0 <= i < |packageCount| && packageCount[i].1 == m
  {
    if packageCount == [] then 0
    else
      var rest := MaxCount(packageCount[1..]);
      if packageCount[1..] == [] || packageCount[0].1 >= rest then packageCount[0].1 else rest
  }

  /** The intended bar: a count over the best seller's count, times 100. */
  function BarPercent(count: int, packageCount: Table): (width: real)
    requires packageCount != [] && AllPositive(packageCount)
  {
    count as real / MaxCount(packageCount) as real * 100.0
  }

  /** Every counter's bar lies within the track, and the best seller fills it. */
  lemma {:induction false} BarWithinTrack(packageCount: Table)
    requires packageCount != [] && AllPositive(packageCount)
    ensures forall i :: 0 <= i < |packageCount| ==> 0.0 < BarPercent(packageCount[i].1, packageCount) <= 100.0
    ensures exists i :: 0 <= i < |packageCount| && BarPercent(packageCount[i].1, packageCount) == 100.0
  {
    var m := MaxCount(packageCount);
    assert m >= packageCount[0].1 >= 1;
    forall i | 0 <= i < |packageCount| ensures 0.0 < BarPercent(packageCount[i].1, packageCount) <= 100.0 {
      BarBound(packageCount[i].1, m);
    }
  }

  lemma BarBound(c: int, m: int)
    requires 1 <= c <= m
    ensures 0.0 < c as real / m as real * 100.0 <= 100.0
  {
    assert c as real / m as real <= 1.0;
  }
}
