/**
 * The row shape shared by the `requests` and `usage` tables (app.py:13-37)
 * and the per-table invariant that AUTOINCREMENT ids give.
 */
module Records {

  /** One stored row. `id` and `tanggal` are assigned when the row is inserted;
      the other five columns are what the form submitted. */
  datatype Row = Row(
    id: int,
    nama: string,
    departemen: string,
    item: string,
    jumlah: int,
    tanggal: string,
    keterangan: string)

  /** The two columns the dashboard groups by. */
  datatype Column = Departemen | Item

  function Field(r: Row, c: Column): string
  {
    match c
    case Departemen => r.departemen
    case Item => r.item
  }

  /** Storage order is ascending id order. */
  predicate IdsAscending(rows: seq<Row>)
  {
    forall i, j :: 0 <= i < j < |rows| ==> rows[i].id < rows[j].id
  }

  /** A table agrees with its AUTOINCREMENT counter `lastId` (the largest id ever
      handed out): ids ascend in storage order and lie in 1..lastId. */
  predicate TableValid(rows: seq<Row>, lastId: int)
  {
    && 0 <= lastId
    && IdsAscending(rows)
    && forall i :: 0 <= i < |rows| ==> 1 <= rows[i].id <= lastId
  }

  /** Appending a row that carries the next counter value keeps the table valid,
      and the new id is larger than every id already stored, so ids stay unique. */
  lemma AppendNextId(rows: seq<Row>, lastId: int, row: Row)
    requires TableValid(rows, lastId)
    requires row.id == lastId + 1
    ensures TableValid(rows + [row], lastId + 1)
    ensures forall i :: 0 <= i < |rows| ==> rows[i].id < row.id
    ensures forall i, j :: 0 <= i < |rows + [row]| && 0 <= j < |rows + [row]| && i != j ==>
      (rows + [row])[i].id != (rows + [row])[j].id
  {
  }
}
