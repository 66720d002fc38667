/**
 * The docks table of the two Python backends (main.py with SQLAlchemy,
 * api/index.py with its async variant): columns id, location, number and
 * status, no name. Both seed an empty table the same way.
 */
module PyStore {
  import opened Wrappers
  import opened Models
  import opened Store
  import opened Seeds

  /** A row as the Python backends serialise it: id, location, number and status, no name. */
  function AsSent(d: Dock): (r: Dock)
    ensures r.id == d.id && r.location == d.location && r.number == d.number && r.status == d.status
    ensures r.name.None?
  {
    d.(name := None)
  }

  /** Every row as the Python backends serialise it, in table order. */
  function AllAsSent(rows: seq<Dock>): (r: seq<Dock>)
    ensures |r| == |rows| && forall k :: 0 <= k < |rows| ==> r[k] == AsSent(rows[k])
  {
    seq(|rows|, k requires 0 <= k < |rows| => AsSent(rows[k]))
  }

  /** The answer of a PUT /api/docks/{id} handler: the dock as JSON, or an error status with its message. */
  datatype HttpReply = Ok(dock: Dock) | Error(code: int, detail: string)

  /**
   * init_db (main.py and api/index.py): when the table holds no dock, the 13
   * southeast docks 1..13 and then the 11 southwest docks 1..11, all
   * available, are added in one commit; a table that holds docks is left
   * alone, and so is one that cannot be read (the error is logged).
   */
  method InitDb(db: Table)
    requires db.Valid() && !db.constrained
    modifies db
    ensures db.Valid() && db.reachable == old(db.reachable) && db.constrained == old(db.constrained)
    ensures old(db.reachable) && old(db.rows) == [] ==>
      db.rows == Materialize(PySeed(), old(db.nextId)) && db.nextId == old(db.nextId) + |PySeed()|
    ensures !(old(db.reachable) && old(db.rows) == []) ==> db.rows == old(db.rows) && db.nextId == old(db.nextId)
  {
    var existing := db.SelectAll();
    if existing.Failure? || existing.value != [] {
      return;
    }
    var seed := PySeed();
    var first := db.nextId;
    var i := 0;
    while i < |seed|
      invariant 0 <= i <= |seed|
      invariant db.Valid() && db.reachable && !db.constrained
      invariant db.rows == Materialize(seed[..i], first) && db.nextId == first + i
      decreases |seed| - i
    {
      var _ := db.Insert(seed[i]);
      MaterializeSnoc(seed, i, first);
      i := i + 1;
    }
    assert seed[..i] == seed;
  }

  /**
   * The seeded table: 24 available docks with consecutive ids, the 13
   * southeast docks first, every seat of the layout exactly once, none named.
   */
  lemma PySeededTable(firstId: int)
    ensures |Materialize(PySeed(), firstId)| == SoutheastCount + SouthwestCount
    ensures forall k :: 0 <= k < |Materialize(PySeed(), firstId)| ==>
      var d := Materialize(PySeed(), firstId)[k];
      && d.id == firstId + k && d.status == StatusText(Available) && d.name.None?
      && d.location == (if k < SoutheastCount then Southeast else Southwest)
    ensures StandardLayout(PySeed())
  {
    PySeedLayout();
  }

  /** A reachable table without constraints holding `d` alone, under id 1 (the scenarios start from it). */
  method OneDock(d: Dock) returns (db: Table)
    ensures fresh(db) && db.Valid() && db.reachable && db.rows == [d.(id := 1)]
  {
    db := new Table(true, false);
    var _ := db.Insert(NewDock(d.location, d.number, d.status, d.name));
  }
}
