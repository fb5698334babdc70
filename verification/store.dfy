/**
 * The record store behind the app: one database holding the `requests` and
 * `usage` tables (app.py:10-37), appended to by `add_request` and `add_usage`
 * (app.py:49-59) and read by full scans (app.py:99-100, 131-132).
 * Rows are never updated or deleted.
 */
module RecordStore {
  import opened Records

  datatype TableName = Requests | Usage

  class Store {
    /** Whether `CREATE TABLE` has run for each table. */
    var requestsExists: bool
    var usageExists: bool
    /** The rows of each table, in storage order. */
    var requests: seq<Row>
    var usage: seq<Row>
    /** Each table's AUTOINCREMENT counter: the largest id it has handed out. */
    var requestsLastId: int
    var usageLastId: int

    ghost predicate Valid()
      reads this
    {
      && (!requestsExists ==> requests == [] && requestsLastId == 0)
      && (!usageExists ==> usage == [] && usageLastId == 0)
      && TableValid(requests, requestsLastId)
      && TableValid(usage, usageLastId)
    }

    /** Connecting to a database file that does not exist yet: no tables. */
    constructor Connect()
      ensures Valid()
      ensures !requestsExists && !usageExists
      ensures requests == [] && usage == []
    {
      requestsExists, usageExists := false, false;
      requests, usage := [], [];
      requestsLastId, usageLastId := 0, 0;
    }

    /** The two `CREATE TABLE IF NOT EXISTS` statements: afterwards both tables
        exist, and no row and no counter has changed. On a store whose tables
        already exist it changes nothing at all, so running it again is harmless. */
    method CreateSchema()
      requires Valid()
      modifies this
      ensures Valid()
      ensures requestsExists && usageExists
      ensures requests == old(requests) && usage == old(usage)
      ensures requestsLastId == old(requestsLastId) && usageLastId == old(usageLastId)
      ensures old(requestsExists && usageExists) ==> unchanged(this)
    {
      if !requestsExists {
        requestsExists := true;
      }
      if !usageExists {
        usageExists := true;
      }
    }

    /** `add_request`: appends exactly one row to `requests`, with the next id
        and the store-assigned `tanggal`; the `usage` table is untouched. */
    method AddRequest(nama: string, departemen: string, item: string, jumlah: int,
                      keterangan: string, tanggal: string)
      requires Valid() && requestsExists
      modifies this
      ensures Valid()
      ensures requestsLastId == old(requestsLastId) + 1
      ensures requests == old(requests) + [Row(requestsLastId, nama, departemen, item, jumlah, tanggal, keterangan)]
      ensures forall i :: 0 <= i < |old(requests)| ==> old(requests)[i].id < requestsLastId
      ensures usage == old(usage) && usageLastId == old(usageLastId)
      ensures requestsExists == old(requestsExists) && usageExists == old(usageExists)
    {
      var row := Row(requestsLastId + 1, nama, departemen, item, jumlah, tanggal, keterangan);
      AppendNextId(requests, requestsLastId, row);
      requests := requests + [row];
      requestsLastId := requestsLastId + 1;
    }

    /** `add_usage`: the mirror image of AddRequest on the `usage` table. */
    method AddUsage(nama: string, departemen: string, item: string, jumlah: int,
                    keterangan: string, tanggal: string)
      requires Valid() && usageExists
      modifies this
      ensures Valid()
      ensures usageLastId == old(usageLastId) + 1
      ensures usage == old(usage) + [Row(usageLastId, nama, departemen, item, jumlah, tanggal, keterangan)]
      ensures forall i :: 0 <= i < |old(usage)| ==> old(usage)[i].id < usageLastId
      ensures requests == old(requests) && requestsLastId == old(requestsLastId)
      ensures requestsExists == old(requestsExists) && usageExists == old(usageExists)
    {
      var row := Row(usageLastId + 1, nama, departemen, item, jumlah, tanggal, keterangan);
      AppendNextId(usage, usageLastId, row);
      usage := usage + [row];
      usageLastId := usageLastId + 1;
    }

    /** `SELECT * FROM <table>`: every stored row, in ascending id order. */
    method SelectAll(t: TableName) returns (rows: seq<Row>)
      requires Valid()
      requires t == Requests ==> requestsExists
      requires t == Usage ==> usageExists
      ensures rows == if t == Requests then requests else usage
      ensures IdsAscending(rows)
      ensures forall i :: 0 <= i < |rows| ==> rows[i].id >= 1
    {
      rows := if t == Requests then requests else usage;
    }
  }

  /** Submitting a request and then scanning `requests`: the last row read back
      carries exactly the submitted columns, under an id no earlier row has. */
  method SubmitRequestThenScan(s: Store, nama: string, departemen: string, item: string,
                               jumlah: int, keterangan: string, tanggal: string)
    returns (rows: seq<Row>)
    requires s.Valid() && s.requestsExists
    modifies s
    ensures |rows| == |old(s.requests)| + 1 && rows[..|rows| - 1] == old(s.requests)
    ensures var r := rows[|rows| - 1];
      && r.nama == nama && r.departemen == departemen && r.item == item
      && r.jumlah == jumlah && r.keterangan == keterangan && r.tanggal == tanggal
      && forall i :: 0 <= i < |rows| - 1 ==> rows[i].id < r.id
    ensures s.usage == old(s.usage)
    ensures s.Valid() && s.requestsExists && rows == s.requests
  {
    s.AddRequest(nama, departemen, item, jumlah, keterangan, tanggal);
    rows := s.SelectAll(Requests);
  }
}
