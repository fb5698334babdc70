# Centralized stationery request store — a Dafny model

The app records stationery *requests* (permintaan) and *usage* (pemakaian) in
two SQLite tables of the same shape, `requests` and `usage`
(`id`, `nama`, `departemen`, `item`, `jumlah`, `tanggal`, `keterangan`), and
shows a dashboard computed from full scans of both tables: total `jumlah` per
department for each table, and the ten items with the largest requested
totals. This project models that core:

- `records.dfy` (module `Records`): the row type and the invariant an
  AUTOINCREMENT table keeps (ids ascend in storage order and never exceed the
  table's counter).
- `store.dfy` (module `RecordStore`): the database as a class `Store` with one
  row sequence, one AUTOINCREMENT counter and one "created" flag per table.
  `CreateSchema` is the pair of `CREATE TABLE IF NOT EXISTS` statements,
  `AddRequest` / `AddUsage` are the two insert functions, `SelectAll` is
  `SELECT * FROM <table>`. Rows are never updated or deleted.
- `reports.dfy` (module `Reports`): the dashboard's computations as pure
  functions over a scanned table: `GroupSum` (`groupby(...)["jumlah"].sum()`),
  `SumByDepartment`, `TopItems` (group by item, sort descending, keep the
  first n), and `ShowDashboard` (which of the "no data" notices and charts
  appear). Reference definitions `Total`, `Select` and `MapTotal` state what
  the group totals mean.
- `ranking.dfy` (module `Ranking`): the descending sort and the properties of
  keeping its first n entries, over (item, total) pairs.
- `catalog.dfy` (module `Catalog`): the item master's display label
  `part_number + " - " + item_name`, with an inverse `SplitLabel`.
- `wrappers.dfy` (module `Wrappers`): an `Option` type.

The timestamp `tanggal` comes from the wall clock in the app; here it is a
parameter of the insert methods. The store accepts any integer `jumlah`, as
`add_request` and `add_usage` do: only the form's number widget enforces a
minimum of 1, so the positivity lemma takes that minimum as a hypothesis
rather than the store enforcing it.

## Model

| member | source | states |
|---|---|---|
| `Records.AppendNextId` | app.py:14-15 | appending a row that carries the next AUTOINCREMENT value keeps ids ascending and within the counter; the new id exceeds every stored id, so all ids in the table stay distinct |
| `RecordStore.Store.Connect` | app.py:10-11 | a freshly connected database has neither table and no rows |
| `RecordStore.Store.CreateSchema` | app.py:13-37 | afterwards both tables exist; no row and no counter changes; on a store whose tables already exist nothing changes at all (idempotent) |
| `RecordStore.Store.AddRequest` | app.py:49-53 | `requests` gains exactly one row at its end, holding the five submitted columns, the given `tanggal` and id = previous counter + 1, larger than every earlier id; `usage` and its counter are unchanged; the store invariant is kept |
| `RecordStore.Store.AddUsage` | app.py:55-59 | the mirror image on `usage`: one row appended with the next id, `requests` unchanged |
| `RecordStore.Store.SelectAll` | app.py:99-100 | a full scan returns every stored row of the table, in ascending id order, all ids at least 1 |
| `RecordStore.SubmitRequestThenScan` | app.py:49-53 | after an insert, the scan's last row carries exactly the submitted `nama`, `departemen`, `item`, `jumlah`, `keterangan` and `tanggal`, the earlier rows are as before, and its id is larger than all of theirs; the scan equals the stored table and the store invariant still holds, so a caller can submit again |
| `Reports.GroupSum` | app.py:110 | the group-by-and-sum itself (also used at app.py:118); it carries no contract of its own, and its meaning is stated by `GroupSumKeys`, `GroupSumValue`, `GroupSumTotal` and `GroupSumPositive` |
| `Reports.GroupSumKeys` | app.py:110 | the group-by result has a key exactly for each value occurring in the grouped column |
| `Reports.SumByDepartment` | app.py:118 | the per-department result has an entry for a department exactly when some row has that department; departments without rows are absent |
| `Reports.GroupSumValue` | app.py:110 | each group's value is the total `jumlah` of precisely the rows of that group; a value with no entry has no rows |
| `Reports.GroupSumTotal` | app.py:110 | the group values add up to the total `jumlah` of the table |
| `Reports.GroupSumPositive` | app.py:74 | when every `jumlah` is at least 1 (the form's minimum), every group value is at least 1 |
| `Reports.DistinctFields` | app.py:125 | the listed items have no repetitions and are exactly the items occurring in the rows |
| `Reports.ItemTotals` | app.py:125 | lists every (item, group total) entry of the item grouping exactly once |
| `Ranking.SortDescending` | app.py:125 | `sort_values(ascending=False)` as an insertion sort; it carries no contract of its own, and `SortDescendingSorts` and `SortDescendingPermutes` prove it descending and a permutation of its input |
| `Ranking.InsertKeepsDescending` | app.py:125 | inserting into a descending list keeps it descending and one entry longer |
| `Ranking.InsertAddsOne` | app.py:125 | inserting adds exactly the one new entry and loses none |
| `Ranking.SortDescendingSorts` | app.py:125 | `sort_values(ascending=False)` yields a descending list of the same length |
| `Ranking.SortDescendingPermutes` | app.py:125 | the sorted list is a permutation of its input |
| `Ranking.TopOfListing` | app.py:125 | the first k entries of a descending listing of all (item, total) entries are descending, carry each item's total, repeat no item, and no item left out has a larger total than the last kept |
| `Reports.TopItems` | app.py:125 | `groupby("item").sum().sort_values(ascending=False).head(n)`; it carries no contract of its own, and `TopItemsSize`, `TopItemsOrdered`, `TopItemsTotals` and `TopItemsCutoff` characterise it up to the order of equal totals |
| `Reports.TopItemsSize` | app.py:125 | the top list has min(n, number of distinct items) entries, so never more than n |
| `Reports.TopItemsOrdered` | app.py:125 | totals along the top list are non-increasing and no item appears twice; no order among equal totals is asserted |
| `Reports.TopItemsTotals` | app.py:125 | each entry of the top list is an item that occurs, paired with its group total |
| `Reports.TopItemsCutoff` | app.py:125 | no item left out of the top list has a larger total than the last item shown |
| `Reports.TopShownNonEmpty` | app.py:123-126 | when `requests` has rows the top list has between 1 and 10 entries, in descending order |
| `Reports.ShowDashboard` | app.py:102-126 | "no data" exactly when both tables are empty; otherwise each table's department chart appears exactly when that table has rows and is that table's per-department `jumlah` totals (`SumByDepartment`), with the departments occurring in it as keys, and the top list appears exactly when `requests` has rows, is `TopItems(requests, 10)`, and has 1 to 10 entries in descending order |
| `Catalog.ItemDisplay` | app.py:43 | the label part number + `" - "` + item name; it carries no contract of its own, and `SplitItemDisplay`, `ItemDisplayInjective` and `ItemDisplayCollision` state when it can be read back |
| `Catalog.SplitItemDisplay` | app.py:43 | a label built from a part number without spaces splits back into exactly that part number and item name |
| `Catalog.ItemDisplayInjective` | app.py:43 | two catalog entries whose part numbers contain no space have equal labels only if they are the same entry |
| `Catalog.ItemDisplayCollision` | app.py:43 | without that restriction two different entries can share a label (`"A"`, `"B - C"` and `"A - B"`, `"C"`) |

## Left out

- The Streamlit pages, forms, menu, success messages and charts (app.py:62-146): presentation only; `ShowDashboard` models which parts of the dashboard appear and what they are computed from.
- SQLite mechanics: the connection and cursor, `commit` and `close`, durability of the file across runs, and the driver's error paths (a locked or full database). `Connect` models a new database file; a file already holding rows from earlier runs is not modelled.
- RecordStore.Store.AddRequest: requires the table to exist instead of modelling SQLite's "no such table" error, because the app always runs both `CREATE TABLE IF NOT EXISTS` statements before any insert; the same holds for `AddUsage` and `SelectAll`.
- RecordStore.Store.AddRequest: does not model SQLite's 64-bit rowid ceiling (the insert that would need an id beyond 2^63 - 1 fails); ids are unbounded integers. The same holds for `AddUsage`.
- Reports.GroupSum: sums are unbounded integers; pandas' 64-bit integer overflow is not modelled.
- Reports.GroupSum: pandas returns the groups ordered by key; the model returns a map and so says nothing about the order of the bars.
- Reports.TopItems: among equal totals the function picks one order (first appearance); pandas' default sort is not stable, so no lemma depends on that order.
- `datetime.now().strftime(...)` (app.py:50, 56): the clock and its formatting; `tanggal` is a parameter.
- Catalog.ItemDisplay: assumes both catalog columns hold strings with no missing values. A blank `part_number` or `item_name` cell would make the pandas label NaN; SQLite stores that as NULL (app.py:51) and `groupby("item")` drops such rows from the top list (app.py:125). A `part_number` column of digits only would be read as integers, and the `+` at app.py:43 would then fail when the app starts. Neither is modelled; every `item` is a string.
- `pd.read_csv` and the `st.cache_data` memoisation of the item master (app.py:40-46): file I/O and framework caching; only the label is modelled.
- The Excel export through `BytesIO`, `pd.ExcelWriter` and openpyxl (app.py:141-146): a binary format written by a library outside this model.
