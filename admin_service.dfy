/**
 * The administrator service's arithmetic: the revenue total, the two group-by tables of the
 * chart data, and the soft delete of a package. A JavaScript object used as a dictionary is
 * an association list `seq<(string, int)>` in insertion order, which is the order
 * `Object.entries` and `Object.values` list it in for the keys used here.
 */
module AdminService {
  import opened Wrappers
  import opened Seqs
  import opened Entities

  type Table = seq<(string, int)>

  /** `orders?.reduce((sum, o) => sum + o.amount, 0) || 0`: no rows, or none fetched, give 0. */
  function StatsRevenue(amounts: Option<seq<int>>): (total: int)
    ensures amounts.None? ==> total == 0
    ensures amounts.Some? ==> total == Sum(amounts.value, (a: int) => a)
  {
    match amounts
    case None => 0
    case Some(s) => Sum(s, (a: int) => a)
  }

  /** `table[key]`, absent when the key was never written. */
  function Lookup(table: Table, key: string): Option<int>
  {
    if table == [] then None
    else if table[0].0 == key then Some(table[0].1)
    else Lookup(table[1..], key)
  }

  /** No key appears twice. */
  predicate UniqueKeys(table: Table)
  {
    forall i, j :: 0 <= i < j < |table| ==> table[i].0 != table[j].0
  }

  /** The sum of the stored values. */
  function SumValues(table: Table): int
  {
    if table == [] then 0 else table[0].1 + SumValues(table[1..])
  }

  /**
   * `table[key] = (table[key] || 0) + v`: the entry for `key` grows by `v`, or a new entry
   * is added at the end.
   */
  function AddTo(table: Table, key: string, v: int): (r: Table)
    ensures |r| == |table| || |r| == |table| + 1
    ensures SumValues(r) == SumValues(table) + v
    ensures Lookup(r, key) == Some(Lookup(table, key).GetOr(0) + v)
    ensures forall k :: k != key ==> Lookup(r, k) == Lookup(table, k)
  {
    if table == [] then [(key, v)]
    else if table[0].0 == key then [(key, table[0].1 + v)] + table[1..]
    else
      var rest := AddTo(table[1..], key, v);
      assert ([table[0]] + rest)[1..] == rest;
      [table[0]] + rest
  }

  lemma {:induction false} AddToKeepsUnique(table: Table, key: string, v: int)
    requires UniqueKeys(table)
    ensures UniqueKeys(AddTo(table, key, v))
  {
    if table != [] && table[0].0 != key {
      AddToKeepsUnique(table[1..], key, v);
      var rest := AddTo(table[1..], key, v);
      forall i | 0 <= i < |rest| ensures rest[i].0 != table[0].0 {
        LookupFindsKeys(rest, i);
        LookupAbsent(table[1..], table[0].0);
      }
    }
  }

  /** A key stored at position `i` of a table without duplicates is found there. */
  lemma {:induction false} LookupFindsKeys(table: Table, i: nat)
    requires i < |table|
    ensures Lookup(table, table[i].0).Some?
  {
    if i > 0 && table[0].0 != table[i].0 {
      LookupFindsKeys(table[1..], i - 1);
    }
  }

  /** The first key of a table without duplicates does not occur in its tail. */
  lemma {:induction false} LookupAbsent(tail: Table, key: string)
    requires forall j :: 0 <= j < |tail| ==> tail[j].0 != key
    ensures Lookup(tail, key).None?
  {
    if tail != [] {
      LookupAbsent(tail[1..], key);
    }
  }

  /** Every stored value is at least 1. */
  predicate AllPositive(table: Table)
  {
    forall i :: 0 <= i < |table| ==> table[i].1 >= 1
  }

  lemma {:induction false} AddToKeepsPositive(table: Table, key: string, v: int)
    requires AllPositive(table) && v >= 1
    ensures AllPositive(AddTo(table, key, v))
  {
    if table != [] && table[0].0 != key {
      AddToKeepsPositive(table[1..], key, v);
    }
  }

  /** The table that grouping `rows` by key, adding up the values, builds. */
  function Grouped(rows: Table): Table
  {
    if rows == [] then [] else AddTo(Grouped(rows[..|rows| - 1]), rows[|rows| - 1].0, rows[|rows| - 1].1)
  }

  /** Whether some row carries `key`. */
  predicate HasRow(rows: Table, key: string)
  {
    exists i :: 0 <= i < |rows| && rows[i].0 == key
  }

  /** The sum of the values of the rows carrying `key`. */
  function KeyTotal(rows: Table, key: string): int
  {
    if rows == [] then 0
    else KeyTotal(rows[..|rows| - 1], key) + (if rows[|rows| - 1].0 == key then rows[|rows| - 1].1 else 0)
  }

  /** Grouping keeps each key once. */
  lemma {:induction false} GroupedUnique(rows: Table)
    ensures UniqueKeys(Grouped(rows))
  {
    if rows != [] {
      GroupedUnique(rows[..|rows| - 1]);
      AddToKeepsUnique(Grouped(rows[..|rows| - 1]), rows[|rows| - 1].0, rows[|rows| - 1].1);
    }
  }

  /** Each row's value lands in exactly one bucket: the buckets add up to the rows' total. */
  lemma {:induction false} GroupedSum(rows: Table)
    ensures SumValues(Grouped(rows)) == Sum(rows, (r: (string, int)) => r.1)
  {
    if rows != [] {
      GroupedSum(rows[..|rows| - 1]);
    }
  }

  /** The bucket of `key` holds the total of the rows carrying `key`, and exists only if one does. */
  lemma {:induction false} GroupedLookup(rows: Table, key: string)
    ensures Lookup(Grouped(rows), key) == if HasRow(rows, key) then Some(KeyTotal(rows, key)) else None
  {
    if rows != [] {
      var init := rows[..|rows| - 1];
      GroupedLookup(init, key);
      assert HasRow(rows, key) <==> HasRow(init, key) || rows[|rows| - 1].0 == key by {
        if HasRow(init, key) {
          var i :| 0 <= i < |init| && init[i].0 == key;
          assert rows[i] == init[i];
        }
        if HasRow(rows, key) && rows[|rows| - 1].0 != key {
          var i :| 0 <= i < |rows| && rows[i].0 == key;
          assert init[i] == rows[i];
        }
      }
      if !HasRow(init, key) {
        KeyTotalAbsent(init, key);
      }
    }
  }

  /** Without a row carrying `key` its total is 0. */
  lemma {:induction false} KeyTotalAbsent(rows: Table, key: string)
    requires !HasRow(rows, key)
    ensures KeyTotal(rows, key) == 0
  {
    if rows != [] {
      var init := rows[..|rows| - 1];
      assert forall i :: 0 <= i < |init| ==> init[i] == rows[i];
      KeyTotalAbsent(init, key);
    }
  }

  /** One completed order of the revenue chart: the day it falls on, and its amount. */
  datatype DayRow = DayRow(day: string, amount: int)

  /**
   * The `revenueByDay` loop: each row's amount added to the bucket of its day. The day is
   * the locale text of the order's date, supplied by the caller.
   */
  method RevenueByDay(recentOrders: Option<seq<DayRow>>) returns (revenueByDay: Table)
    ensures revenueByDay == Grouped(DayPairs(recentOrders))
  {
    revenueByDay := [];
    var rows := DayPairs(recentOrders);
    var i := 0;
    while i < |rows|
      invariant 0 <= i <= |rows|
      invariant revenueByDay == Grouped(rows[..i])
    {
      assert rows[..i + 1][..i] == rows[..i];
      revenueByDay := AddTo(revenueByDay, rows[i].0, rows[i].1);
      i := i + 1;
    }
    assert rows[..|rows|] == rows;
  }

  /** `recentOrders?.forEach`: no rows fetched is the same as an empty list. */
  function DayPairs(recentOrders: Option<seq<DayRow>>): (r: Table)
    ensures recentOrders.None? ==> r == []
    ensures recentOrders.Some? ==> |r| == |recentOrders.value|
                                   && forall i :: 0 <= i < |r| ==> r[i] == (recentOrders.value[i].day, recentOrders.value[i].amount)
  {
    match recentOrders
    case None => []
    case Some(s) => seq(|s|, i requires 0 <= i < |s| => (s[i].day, s[i].amount))
  }

  /** The revenue chart: one bucket per day, and the buckets add up to the amounts fetched. */
  lemma RevenueByDayTotals(recentOrders: Option<seq<DayRow>>)
    ensures var t := Grouped(DayPairs(recentOrders));
            && UniqueKeys(t)
            && SumValues(t) == Sum(DayPairs(recentOrders), (r: (string, int)) => r.1)
  {
    GroupedUnique(DayPairs(recentOrders));
    GroupedSum(DayPairs(recentOrders));
  }

  /** `order.packages?.name || 'Desconocido'`: a missing or empty name is counted as unknown. */
  function PackageName(name: Option<string>): (r: string)
    ensures r != ""
    ensures name.Some? && name.value != "" ==> r == name.value
  {
    if name.Some? && name.value != "" then name.value else "Desconocido"
  }

  /** Each sale as a row worth one under its package's name. */
  function SalePairs(packageSales: Option<seq<Option<string>>>): (r: Table)
    ensures packageSales.None? ==> r == []
    ensures packageSales.Some? ==> |r| == |packageSales.value|
                                   && forall i :: 0 <= i < |r| ==> r[i] == (PackageName(packageSales.value[i]), 1)
  {
    match packageSales
    case None => []
    case Some(s) => seq(|s|, i requires 0 <= i < |s| => (PackageName(s[i]), 1))
  }

  /** The `packageCount` loop: one added to the counter of each sale's package name. */
  method PackageCount(packageSales: Option<seq<Option<string>>>) returns (packageCount: Table)
    ensures packageCount == Grouped(SalePairs(packageSales))
  {
    packageCount := [];
    var rows := SalePairs(packageSales);
    var i := 0;
    while i < |rows|
      invariant 0 <= i <= |rows|
      invariant packageCount == Grouped(rows[..i])
    {
      assert rows[..i + 1][..i] == rows[..i];
      packageCount := AddTo(packageCount, rows[i].0, 1);
      i := i + 1;
    }
    assert rows[..|rows|] == rows;
  }

  /** The values of a table built from rows worth one each are all at least one. */
  lemma {:induction false} GroupedOnesPositive(rows: Table)
    requires forall i :: 0 <= i < |rows| ==> rows[i].1 == 1
    ensures AllPositive(Grouped(rows))
  {
    if rows != [] {
      GroupedOnesPositive(rows[..|rows| - 1]);
      AddToKeepsPositive(Grouped(rows[..|rows| - 1]), rows[|rows| - 1].0, 1);
    }
  }

  /** A sum of ones is the number of terms. */
  lemma {:induction false} SumOfOnes(rows: Table)
    requires forall i :: 0 <= i < |rows| ==> rows[i].1 == 1
    ensures Sum(rows, (r: (string, int)) => r.1) == |rows|
  {
    if rows != [] {
      SumOfOnes(rows[..|rows| - 1]);
    }
  }

  /**
   * The sales counters: one per package name, each at least one, adding up to the number of
   * sales fetched.
   */
  lemma PackageCountTotals(packageSales: Option<seq<Option<string>>>)
    ensures var t := Grouped(SalePairs(packageSales));
            && UniqueKeys(t)
            && AllPositive(t)
            && SumValues(t) == (if packageSales.None? then 0 else |packageSales.value|)
  {
    var rows := SalePairs(packageSales);
    GroupedUnique(rows);
    GroupedOnesPositive(rows);
    GroupedSum(rows);
    SumOfOnes(rows);
  }

  /** `deletePackage`: the package with `id` is made inactive; no row is removed and nothing else changes. */
  function DeletePackage(table: seq<Package>, id: string): (r: seq<Package>)
    ensures |r| == |table|
    ensures forall i :: 0 <= i < |r| ==> r[i] == if table[i].id == id then table[i].(isActive := false) else table[i]
  {
    seq(|table|, i requires 0 <= i < |table| => if table[i].id == id then table[i].(isActive := false) else table[i])
  }

  /** A deleted package leaves the active catalogue but keeps every other column. */
  lemma DeletedIsInactive(table: seq<Package>, id: string, i: nat)
    requires i < |table| && table[i].id == id
    ensures !DeletePackage(table, id)[i].isActive
    ensures DeletePackage(table, id)[i].(isActive := table[i].isActive) == table[i]
  {
  }
}
