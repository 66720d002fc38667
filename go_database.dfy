/**
 * backend_2/internal/database/db.go: the DB wrapper of the package-based Go
 * server. Reads go through GoSql (GetAllDocks and GetDockByID are
 * GoSql.QueryDocks and GoSql.QueryDockById); this module holds the
 * validating status update and the schema reset with its seed.
 */
module GoDatabase {
  import opened Wrappers
  import opened Models
  import opened Docks
  import opened Store
  import opened Seeds
  import opened GoSql

  /** The four error texts UpdateDockStatus can return. */
  datatype UpdateError =
    | InvalidStatus(status: string)
    | UpdateFailed
    | NoDockFound(id: int)
    | ReadFailed(cause: FetchError)

  /** What UpdateDockStatus answers for a table that is `reachable` and holds `rows` before the call. */
  function UpdateAnswer(reachable: bool, rows: seq<Dock>, id: int, status: string): Result<Dock, UpdateError>
  {
    if !IsValidStatus(status) then Failure(InvalidStatus(status))
    else if !reachable then Failure(UpdateFailed)
    else if Find(rows, id).None? then Failure(NoDockFound(id))
    else
      match ScanOne(true, Find(WithStatus(rows, id, status), id))
      case Success(d) => Success(d)
      case Failure(e) => Failure(ReadFailed(e))
  }

  /**
   * UpdateDockStatus succeeds exactly for one of the four statuses on a
   * reachable table that has a named row with the id, and then answers that
   * row with its new status; a present row that fails to read back can only
   * have a NULL name.
   */
  lemma UpdateAnswerMeaning(reachable: bool, rows: seq<Dock>, id: int, status: string)
    ensures UpdateAnswer(reachable, rows, id, status).Success? <==>
      IsValidStatus(status) && reachable && Find(rows, id).Some? && Find(rows, id).value.name.Some?
    ensures UpdateAnswer(reachable, rows, id, status).Success? ==>
      UpdateAnswer(reachable, rows, id, status).value == Find(rows, id).value.(status := status)
    ensures UpdateAnswer(reachable, rows, id, status).Success? ==>
      UpdateAnswer(reachable, rows, id, status).value.status in ValidStatuses
    ensures IsValidStatus(status) && reachable && Find(rows, id).Some? && Find(rows, id).value.name.None? ==>
      UpdateAnswer(reachable, rows, id, status) == Failure(ReadFailed(NullName))
  {
    FindAfterWithStatus(rows, id, status, id);
  }

  /** Repeating an update answers the same dock: the second one finds the row already in its new state. */
  lemma UpdateAnswerRepeat(reachable: bool, rows: seq<Dock>, id: int, status: string)
    ensures UpdateAnswer(reachable, WithStatus(rows, id, status), id, status) == UpdateAnswer(reachable, rows, id, status)
  {
    FindAfterWithStatus(rows, id, status, id);
    FindAfterWithStatus(WithStatus(rows, id, status), id, status, id);
    LastWriteWins(rows, id, status, status);
  }

  /**
   * UpdateDockStatus: reject a status outside the four before touching the
   * table, run the UPDATE, report a missing id from the affected-row count,
   * then read the row back.
   */
  method UpdateDockStatus(db: Table, id: int, status: string) returns (r: Result<Dock, UpdateError>)
    requires db.Valid()
    modifies db
    ensures db.Valid()
    ensures db.reachable == old(db.reachable) && db.nextId == old(db.nextId) && db.constrained == old(db.constrained)
    ensures db.rows == if IsValidStatus(status) && old(db.reachable) then WithStatus(old(db.rows), id, status) else old(db.rows)
    ensures r == UpdateAnswer(old(db.reachable), old(db.rows), id, status)
  {
    if !IsValidStatus(status) {
      return Failure(InvalidStatus(status));
    }
    var affected := db.UpdateStatus(id, status);
    if affected.Failure? {
      return Failure(UpdateFailed);
    }
    if affected.value == 0 {
      return Failure(NoDockFound(id));
    }
    var fetched := QueryDockById(db, id);
    if fetched.Failure? {
      return Failure(ReadFailed(fetched.error));
    }
    return Success(fetched.value);
  }

  /** Every seed row passes the constraints of the table holding the rows inserted before it. */
  lemma GoSeedAdmissible(i: nat)
    requires i < |GoSeed()|
    ensures Admissible(Materialize(GoSeed()[..i], 1), GoSeed()[i])
  {
    var seed := GoSeed();
    var rows := Materialize(seed[..i], 1);
    GoSeedLayout();
    GoSeedNamesDistinct();
    forall k | 0 <= k < |rows|
      ensures rows[k].location != seed[i].location || rows[k].number != seed[i].number
      ensures rows[k].name != seed[i].name
    {
      assert rows[k].location == seed[k].location && rows[k].number == seed[k].number && rows[k].name == seed[k].name;
    }
  }

  /**
   * InitializeDB: drop and recreate the constrained docks table, then insert
   * the 11 named southwest docks and the 13 southeast docks "Dock 1" ..
   * "Dock 13". Every insert passes the constraints, so the only failure is a
   * database that does not answer, and then nothing changes.
   */
  method InitializeDB(db: Table) returns (ok: bool)
    requires db.Valid()
    modifies db
    ensures db.Valid() && db.reachable == old(db.reachable) && ok == db.reachable
    ensures ok ==> db.constrained && db.rows == Materialize(GoSeed(), 1) && db.nextId == 1 + |GoSeed()|
    ensures !ok ==> db.rows == old(db.rows) && db.nextId == old(db.nextId) && db.constrained == old(db.constrained)
  {
    ok := db.Recreate(true);
    if !ok {
      return;
    }
    var seed := GoSeed();
    var i := 0;
    while i < |seed|
      invariant 0 <= i <= |seed|
      invariant db.Valid() && db.reachable && db.constrained
      invariant db.rows == Materialize(seed[..i], 1) && db.nextId == 1 + i
      decreases |seed| - i
    {
      GoSeedAdmissible(i);
      var inserted := db.Insert(seed[i]);
      MaterializeSnoc(seed, i, 1);
      i := i + 1;
    }
    assert seed[..i] == seed;
  }

  /**
   * After InitializeDB the table reads back as 24 available docks with
   * distinct names and distinct (location, number) seats, ids 1 .. 24.
   */
  lemma InitializedTable()
    ensures ScanAll(true, Materialize(GoSeed(), 1)).Success?
    ensures |Materialize(GoSeed(), 1)| == SoutheastCount + SouthwestCount
    ensures UniqueNames(Materialize(GoSeed(), 1)) && UniqueSeats(Materialize(GoSeed(), 1))
    ensures forall k :: 0 <= k < |Materialize(GoSeed(), 1)| ==>
      Materialize(GoSeed(), 1)[k].id == k + 1 && Materialize(GoSeed(), 1)[k].status == StatusText(Available)
  {
    GoSeedLayout();
    GoSeedNamesDistinct();
  }
}
