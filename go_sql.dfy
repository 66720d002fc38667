/**
 * Reading the docks table through Go's database/sql: a query that errs, a
 * QueryRow with no matching row (sql.ErrNoRows) and a NULL name scanned into
 * a Go string are the three ways a read fails. backend_2/main.go
 * (fetchAllDocks, fetchDock) and backend_2/internal/database/db.go
 * (GetAllDocks, GetDockByID) run the same queries with the same scans.
 */
module GoSql {
  import opened Wrappers
  import opened Models
  import opened Docks
  import opened Store

  /**
   * Why a read fails: the query errs, no row matches (sql.ErrNoRows), or a
   * NULL name cannot be scanned into a Go string.
   */
  datatype FetchError = QueryFailed | NoRows | NullName

  predicate AllNamed(rows: seq<Dock>)
  {
    forall k :: 0 <= k < |rows| ==> rows[k].name.Some?
  }

  /** What a full read answers for a table that is `reachable` and holds `rows`. */
  function ScanAll(reachable: bool, rows: seq<Dock>): Result<seq<Dock>, FetchError>
  {
    if !reachable then Failure(QueryFailed)
    else if AllNamed(rows) then Success(rows)
    else Failure(NullName)
  }

  /** What a read by id answers for a table that is `reachable` and whose row for the id is `row`. */
  function ScanOne(reachable: bool, row: Option<Dock>): Result<Dock, FetchError>
  {
    if !reachable then Failure(QueryFailed)
    else if row.None? then Failure(NoRows)
    else if row.value.name.None? then Failure(NullName)
    else Success(row.value)
  }

  /** A full read and a read by id agree: when the full read succeeds, a read by id finds exactly the listed row. */
  lemma ScanOneAgrees(reachable: bool, rows: seq<Dock>, id: int)
    requires ScanAll(reachable, rows).Success?
    ensures ScanOne(reachable, Find(rows, id)).Success? <==> exists k :: 0 <= k < |rows| && rows[k].id == id
    ensures ScanOne(reachable, Find(rows, id)).Success? ==>
      ScanOne(reachable, Find(rows, id)).value in rows && ScanOne(reachable, Find(rows, id)).value.id == id
  {
    var row := Find(rows, id);
    if row.Some? {
      var k :| 0 <= k < |rows| && rows[k] == row.value;
    }
  }

  /** GetAllDocks / fetchAllDocks: SELECT every row, scanning each into a Dock; the first NULL name aborts the read. */
  method QueryDocks(db: Table) returns (r: Result<seq<Dock>, FetchError>)
    ensures r == ScanAll(db.reachable, db.rows)
  {
    var selected := db.SelectAll();
    if selected.Failure? {
      return Failure(QueryFailed);
    }
    var rows := selected.value;
    var docks: seq<Dock> := [];
    var i := 0;
    while i < |rows|
      invariant 0 <= i <= |rows|
      invariant docks == rows[..i] && AllNamed(rows[..i])
    {
      if rows[i].name.None? {
        return Failure(NullName);
      }
      docks := docks + [rows[i]];
      assert rows[..i + 1] == rows[..i] + [rows[i]];
      i := i + 1;
    }
    assert rows[..|rows|] == rows;
    return Success(docks);
  }

  /** GetDockByID / fetchDock: SELECT the row with the id and scan it. */
  method QueryDockById(db: Table, id: int) returns (r: Result<Dock, FetchError>)
    ensures r == ScanOne(db.reachable, Find(db.rows, id))
  {
    var selected := db.SelectById(id);
    if selected.Failure? {
      return Failure(QueryFailed);
    }
    var row := selected.value;
    if row.None? {
      return Failure(NoRows);
    }
    if row.value.name.None? {
      return Failure(NullName);
    }
    return Success(row.value);
  }
}

/** Go's encoding/json as the handlers use it: decoding a body into a struct with one string field. */
module GoJson {
  import opened Wrappers
  import opened Models

  /**
   * The status a Go decode of the body into a struct with one string field
   * yields: `null`, whether the whole body or the member, leaves the field
   * at "", and so does a missing member; any other JSON value where a string
   * or an object is expected is a decode error, and so is text that is not JSON.
   */
  function DecodedStatus(body: Body): Option<string>
  {
    match body
    case Undecodable => None
    case NullBody => Some("")
    case Decoded(Absent) => Some("")
    case Decoded(Null) => Some("")
    case Decoded(Text(t)) => Some(t)
    case Decoded(NotText) => None
    case ArrayOrString(_) => None
    case NumberOrBool => None
  }

  /**
   * The decode succeeds exactly for `null` and for objects whose "status" is
   * missing, `null` or a string; it yields the string, or "" for the other two,
   * which is not one of the four statuses.
   */
  lemma DecodedStatusMeaning(body: Body)
    ensures DecodedStatus(body).Some? <==> body.NullBody? || (body.Decoded? && !body.status.NotText?)
    ensures DecodedStatus(body).Some? && body.Decoded? && body.status.Text? ==> DecodedStatus(body).value == body.status.text
    ensures DecodedStatus(body).Some? && !(body.Decoded? && body.status.Text?) ==>
      DecodedStatus(body).value == "" && !IsValidStatus(DecodedStatus(body).value)
  {
  }
}
