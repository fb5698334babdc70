/**
 * The dashboard's reports (app.py:99-126), recomputed from full scans of the
 * two tables on every view: per-department totals of `jumlah`, the items with
 * the largest requested totals, and the "no data" case.
 */
module Reports {
  import opened Records
  import opened Wrappers
  import opened Ranking

  /** Sum of `jumlah` over all rows. */
  function Total(rows: seq<Row>): int
  {
    if rows == [] then 0 else Total(rows[..|rows| - 1]) + rows[|rows| - 1].jumlah
  }

  /** The rows whose column `c` holds `k`, in storage order. */
  function Select(rows: seq<Row>, c: Column, k: string): seq<Row>
  {
    if rows == [] then []
    else
      var rest := Select(rows[..|rows| - 1], c, k);
      if Field(rows[|rows| - 1], c) == k then rest + [rows[|rows| - 1]] else rest
  }

  /** The values that occur in column `c`. */
  function Occurring(rows: seq<Row>, c: Column): set<string>
  {
    set i | 0 <= i < |rows| :: Field(rows[i], c)
  }

  lemma OccurringSnoc(rows: seq<Row>, c: Column)
    requires rows != []
    ensures Occurring(rows, c) == Occurring(rows[..|rows| - 1], c) + {Field(rows[|rows| - 1], c)}
  {
    var front := rows[..|rows| - 1];
    forall k | k in Occurring(rows, c) ensures k in Occurring(front, c) + {Field(rows[|rows| - 1], c)} {
      var i :| 0 <= i < |rows| && Field(rows[i], c) == k;
      if i < |front| {
        assert Field(front[i], c) == k;
      }
    }
    forall k | k in Occurring(front, c) ensures k in Occurring(rows, c) {
      var i :| 0 <= i < |front| && Field(front[i], c) == k;
      assert Field(rows[i], c) == k;
    }
  }

  /** `df.groupby(c)["jumlah"].sum()`: the rows folded, in storage order, into
      a map from each value of column `c` to the sum of `jumlah` for it. */
  function GroupSum(rows: seq<Row>, c: Column): map<string, int>
  {
    if rows == [] then map[]
    else
      var m := GroupSum(rows[..|rows| - 1], c);
      var last := rows[|rows| - 1];
      var k := Field(last, c);
      m[k := (if k in m then m[k] else 0) + last.jumlah]
  }

  /** The group-by result has an entry for each value occurring in column `c`
      and for no other value. */
  lemma {:induction false} GroupSumKeys(rows: seq<Row>, c: Column)
    ensures GroupSum(rows, c).Keys == Occurring(rows, c)
  {
    if rows != [] {
      GroupSumKeys(rows[..|rows| - 1], c);
      OccurringSnoc(rows, c);
    }
  }

  /** Per-department totals (app.py:110, 118): departments without rows are absent. */
  function SumByDepartment(rows: seq<Row>): (m: map<string, int>)
    ensures forall k :: k in m <==> exists i :: 0 <= i < |rows| && rows[i].departemen == k
  {
    GroupSumKeys(rows, Departemen);
    GroupSum(rows, Departemen)
  }

  lemma TotalSnoc(rows: seq<Row>, r: Row)
    ensures Total(rows + [r]) == Total(rows) + r.jumlah
  {
    assert (rows + [r])[..|rows|] == rows;
  }

  /** Each group's value is the total `jumlah` of exactly that group's rows. */
  lemma {:induction false} GroupSumValue(rows: seq<Row>, c: Column, k: string)
    ensures k in GroupSum(rows, c) ==> GroupSum(rows, c)[k] == Total(Select(rows, c, k))
    ensures k !in GroupSum(rows, c) ==> Select(rows, c, k) == []
  {
    if rows != [] {
      var front := rows[..|rows| - 1];
      var last := rows[|rows| - 1];
      GroupSumValue(front, c, k);
      if Field(last, c) == k {
        TotalSnoc(Select(front, c, k), last);
      }
    }
  }

  /** Sum of the values of a map (in no particular key order). */
  ghost function MapTotal(m: map<string, int>): int
    decreases |m|
  {
    if m == map[] then 0
    else
      var k :| k in m;
      assert |m - {k}| < |m| by { assert (m - {k}).Keys == m.Keys - {k}; }
      m[k] + MapTotal(m - {k})
  }

  /** MapTotal does not depend on which key it takes first. */
  lemma {:induction false} MapTotalRemove(m: map<string, int>, k: string)
    requires k in m
    ensures MapTotal(m) == m[k] + MapTotal(m - {k})
    decreases |m|
  {
    var k' :| k' in m && MapTotal(m) == m[k'] + MapTotal(m - {k'});
    if k' != k {
      assert (m - {k'}).Keys == m.Keys - {k'};
      assert (m - {k}).Keys == m.Keys - {k};
      MapTotalRemove(m - {k'}, k);
      MapTotalRemove(m - {k}, k');
      assert m - {k'} - {k} == m - {k} - {k'};
    }
  }

  lemma MapTotalUpdate(m: map<string, int>, k: string, v: int)
    ensures MapTotal(m[k := v]) == MapTotal(m) - (if k in m then m[k] else 0) + v
  {
    MapTotalRemove(m[k := v], k);
    assert m[k := v] - {k} == m - {k};
    if k in m {
      MapTotalRemove(m, k);
    } else {
      assert m - {k} == m;
    }
  }

  /** The group totals add up to the table's total `jumlah`. */
  lemma {:induction false} GroupSumTotal(rows: seq<Row>, c: Column)
    ensures MapTotal(GroupSum(rows, c)) == Total(rows)
  {
    if rows != [] {
      var front := rows[..|rows| - 1];
      var last := rows[|rows| - 1];
      var m := GroupSum(front, c);
      var k := Field(last, c);
      var v := (if k in m then m[k] else 0) + last.jumlah;
      assert GroupSum(rows, c) == m[k := v];
      assert Total(rows) == Total(front) + last.jumlah;
      GroupSumTotal(front, c);
      MapTotalUpdate(m, k, v);
    }
  }

  /** With every `jumlah` at least 1 (the form's minimum), every group total is at least 1. */
  lemma {:induction false} GroupSumPositive(rows: seq<Row>, c: Column)
    requires forall i :: 0 <= i < |rows| ==> rows[i].jumlah >= 1
    ensures forall k :: k in GroupSum(rows, c) ==> GroupSum(rows, c)[k] >= 1
  {
    if rows != [] {
      GroupSumPositive(rows[..|rows| - 1], c);
    }
  }

  /** The values of column `c` without repetition, in order of first appearance. */
  function DistinctFields(rows: seq<Row>, c: Column): (d: seq<string>)
    ensures forall i, j :: 0 <= i < j < |d| ==> d[i] != d[j]
    ensures forall k :: k in d <==> k in Occurring(rows, c)
  {
    if rows == [] then []
    else
      var d := DistinctFields(rows[..|rows| - 1], c);
      var k := Field(rows[|rows| - 1], c);
      OccurringSnoc(rows, c);
      if k in d then d else d + [k]
  }

  /** A sequence without repeated elements has as many distinct elements as entries. */
  lemma {:induction false} DistinctCount(d: seq<string>)
    requires forall i, j :: 0 <= i < j < |d| ==> d[i] != d[j]
    ensures |set k | k in d| == |d|
  {
    if d != [] {
      DistinctCount(d[1..]);
      assert (set k | k in d) == {d[0]} + (set k | k in d[1..]);
      assert d[0] !in (set k | k in d[1..]);
    }
  }

  /** Each key of `d` paired with its value in `m`. */
  function WithTotals(d: seq<string>, m: map<string, int>): seq<(string, int)>
    requires forall k :: k in d ==> k in m
  {
    seq(|d|, i requires 0 <= i < |d| => (d[i], m[d[i]]))
  }

  /** Pairing a repetition-free listing of m's keys gives every entry of m once. */
  lemma WithTotalsEntries(d: seq<string>, m: map<string, int>)
    requires forall i, j :: 0 <= i < j < |d| ==> d[i] != d[j]
    requires forall k :: k in d <==> k in m
    ensures |WithTotals(d, m)| == |m|
    ensures forall i, j :: 0 <= i < j < |WithTotals(d, m)| ==> WithTotals(d, m)[i] != WithTotals(d, m)[j]
    ensures forall x: (string, int) :: x in WithTotals(d, m) <==> x.0 in m && x.1 == m[x.0]
  {
    var pairs := WithTotals(d, m);
    DistinctCount(d);
    assert (set k | k in d) == m.Keys;
    forall x: (string, int) | x.0 in m && x.1 == m[x.0] ensures x in pairs {
      var t :| 0 <= t < |d| && d[t] == x.0;
      assert pairs[t] == x;
    }
  }

  /** Each distinct item paired with its group total, in order of first appearance. */
  function ItemTotals(rows: seq<Row>): (pairs: seq<(string, int)>)
    ensures |pairs| == |GroupSum(rows, Item)|
    ensures ListsEntries(GroupSum(rows, Item), pairs)
  {
    var m := GroupSum(rows, Item);
    var d := DistinctFields(rows, Item);
    GroupSumKeys(rows, Item);
    WithTotalsEntries(d, m);
    WithTotals(d, m)
  }

  /** `df.groupby("item")["jumlah"].sum().sort_values(ascending=False).head(n)`
      (app.py:125 with n = 10). Among equal totals this picks one order; the
      lemmas TopItemsSize, TopItemsOrdered, TopItemsTotals and TopItemsCutoff
      state only what holds for every order. */
  function TopItems(rows: seq<Row>, n: nat): seq<(string, int)>
  {
    var sorted := SortDescending(ItemTotals(rows));
    sorted[..Min(n, |sorted|)]
  }

  /** The top list is a prefix of a descending listing of every (item, total) entry. */
  lemma TopItemsFromListing(rows: seq<Row>, n: nat)
    ensures var m := GroupSum(rows, Item); var sorted := SortDescending(ItemTotals(rows));
      && ListsEntries(m, sorted) && Descending(sorted) && |sorted| == |m|
      && TopItems(rows, n) == sorted[..Min(n, |sorted|)]
  {
    var pairs := ItemTotals(rows);
    SortDescendingSorts(pairs);
    SortListsEntries(GroupSum(rows, Item), pairs);
  }

  /** The top list has min(n, number of distinct items) entries: never more than n. */
  lemma TopItemsSize(rows: seq<Row>, n: nat)
    ensures |TopItems(rows, n)| == Min(n, |GroupSum(rows, Item)|)
  {
    TopItemsFromListing(rows, n);
  }

  /** Totals are non-increasing and no item is listed twice; nothing is said
      about the order of equal totals. */
  lemma TopItemsOrdered(rows: seq<Row>, n: nat)
    ensures Descending(TopItems(rows, n))
    ensures KeysDistinct(TopItems(rows, n))
  {
    TopItemsFromListing(rows, n);
    var sorted := SortDescending(ItemTotals(rows));
    TopOfListing(GroupSum(rows, Item), sorted, Min(n, |sorted|));
  }

  /** Each entry is an item with its group total. */
  lemma TopItemsTotals(rows: seq<Row>, n: nat)
    ensures EntriesOf(GroupSum(rows, Item), TopItems(rows, n))
  {
    TopItemsFromListing(rows, n);
    var sorted := SortDescending(ItemTotals(rows));
    TopOfListing(GroupSum(rows, Item), sorted, Min(n, |sorted|));
  }

  /** No item left out has a larger total than the last item shown. */
  lemma TopItemsCutoff(rows: seq<Row>, n: nat)
    ensures NoneLeftAbove(GroupSum(rows, Item), TopItems(rows, n))
  {
    TopItemsFromListing(rows, n);
    var sorted := SortDescending(ItemTotals(rows));
    TopOfListing(GroupSum(rows, Item), sorted, Min(n, |sorted|));
  }

  /** How many items the dashboard's top list shows (app.py:125). */
  const TopShown: nat := 10

  /** A non-empty requests table gives a top list of 1 to TopShown entries, in descending order. */
  lemma TopShownNonEmpty(requests: seq<Row>)
    requires requests != []
    ensures 0 < |TopItems(requests, TopShown)| <= TopShown
    ensures Descending(TopItems(requests, TopShown))
  {
    TopItemsSize(requests, TopShown);
    TopItemsOrdered(requests, TopShown);
    GroupSumKeys(requests, Item);
    assert Field(requests[0], Item) in Occurring(requests, Item);
  }

  /** What the dashboard shows for the two scanned tables (app.py:102-126):
      either the "no data" notice, or each table's per-department chart (None
      where that table is empty and its own notice is shown instead) and the
      top requested items (only when `requests` has rows). */
  datatype Dashboard =
    | NoData
    | Charts(requestsByDepartment: Option<map<string, int>>,
             usageByDepartment: Option<map<string, int>>,
             topRequested: Option<seq<(string, int)>>)

  function ShowDashboard(requests: seq<Row>, usage: seq<Row>): (v: Dashboard)
    ensures v.NoData? <==> requests == [] && usage == []
    ensures v.Charts? ==> (v.requestsByDepartment.Some? <==> requests != [])
    ensures v.Charts? ==> (v.usageByDepartment.Some? <==> usage != [])
    ensures v.Charts? ==> (v.topRequested.Some? <==> requests != [])
    ensures v.Charts? && v.requestsByDepartment.Some? ==>
      v.requestsByDepartment.value.Keys == Occurring(requests, Departemen)
    ensures v.Charts? && v.usageByDepartment.Some? ==>
      v.usageByDepartment.value.Keys == Occurring(usage, Departemen)
    ensures v.Charts? && v.topRequested.Some? ==>
      0 < |v.topRequested.value| <= TopShown && Descending(v.topRequested.value)
    ensures v.Charts? && v.requestsByDepartment.Some? ==>
      v.requestsByDepartment.value == SumByDepartment(requests)
    ensures v.Charts? && v.usageByDepartment.Some? ==>
      v.usageByDepartment.value == SumByDepartment(usage)
    ensures v.Charts? && v.topRequested.Some? ==>
      v.topRequested.value == TopItems(requests, TopShown)
  {
    if requests == [] && usage == [] then NoData
    else if requests == [] then
      GroupSumKeys(usage, Departemen);
      Charts(None, Some(SumByDepartment(usage)), None)
    else
      GroupSumKeys(requests, Departemen);
      GroupSumKeys(usage, Departemen);
      TopShownNonEmpty(requests);
      Charts(
        Some(SumByDepartment(requests)),
        if usage == [] then None else Some(SumByDepartment(usage)),
        Some(TopItems(requests, TopShown)))
  }
}
