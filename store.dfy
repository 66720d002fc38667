/**
 * Lists of dock rows: lookup by id and the status update that every backend's
 * store and every client's optimistic update perform.
 */
module Docks {
  import opened Wrappers
  import opened Models

  /** The primary key: no two rows share an id. */
  predicate UniqueIds(rows: seq<Dock>)
  {
    forall i, j :: 0 <= i < j < |rows| ==> rows[i].id != rows[j].id
  }

  /** No two rows share a (location, number) pair. */
  predicate UniqueSeats(rows: seq<Dock>)
  {
    forall i, j :: 0 <= i < j < |rows| ==> rows[i].location != rows[j].location || rows[i].number != rows[j].number
  }

  /** Every row has a name and no two rows share one. */
  predicate UniqueNames(rows: seq<Dock>)
  {
    && (forall i :: 0 <= i < |rows| ==> rows[i].name.Some?)
    && (forall i, j :: 0 <= i < j < |rows| ==> rows[i].name != rows[j].name)
  }

  /** The first row with the given id, if any. */
  function Find(rows: seq<Dock>, id: int): (r: Option<Dock>)
    ensures r.Some? ==> r.value in rows && r.value.id == id
    ensures r.None? <==> forall k :: 0 <= k < |rows| ==> rows[k].id != id
  {
    if rows == [] then None
    else if rows[0].id == id then Some(rows[0])
    else Find(rows[1..], id)
  }

  /** With unique ids, the row found for an id is the one row carrying it. */
  lemma {:induction false} FindUnique(rows: seq<Dock>, k: int)
    requires UniqueIds(rows) && 0 <= k < |rows|
    ensures Find(rows, rows[k].id) == Some(rows[k])
  {
    if k > 0 {
      FindUnique(rows[1..], k - 1);
    }
  }

  /** Every row whose id is `id` gets status `status`; every other row is kept. */
  function WithStatus(rows: seq<Dock>, id: int, status: string): (r: seq<Dock>)
    ensures |r| == |rows|
    ensures forall k :: 0 <= k < |rows| && rows[k].id != id ==> r[k] == rows[k]
    ensures forall k :: 0 <= k < |rows| && rows[k].id == id ==> r[k] == rows[k].(status := status)
  {
    if rows == [] then []
    else [if rows[0].id == id then rows[0].(status := status) else rows[0]] + WithStatus(rows[1..], id, status)
  }

  /** Updating an id that no row has changes nothing. */
  lemma WithStatusAbsent(rows: seq<Dock>, id: int, status: string)
    requires Find(rows, id).None?
    ensures WithStatus(rows, id, status) == rows
  {
  }

  /** A second update of the same id overrides the first. */
  lemma LastWriteWins(rows: seq<Dock>, id: int, s1: string, s2: string)
    ensures WithStatus(WithStatus(rows, id, s1), id, s2) == WithStatus(rows, id, s2)
  {
  }

  /** Only the status changes: ids, seats and names are those of the old rows. */
  lemma WithStatusKeepsKeys(rows: seq<Dock>, id: int, status: string)
    ensures UniqueIds(rows) ==> UniqueIds(WithStatus(rows, id, status))
    ensures UniqueSeats(rows) ==> UniqueSeats(WithStatus(rows, id, status))
    ensures UniqueNames(rows) ==> UniqueNames(WithStatus(rows, id, status))
  {
  }

  /** After the update, the row of `id` is the old one with the new status; other ids read as before. */
  lemma {:induction false} FindAfterWithStatus(rows: seq<Dock>, id: int, status: string, j: int)
    ensures Find(WithStatus(rows, id, status), j) ==
      (if j == id && Find(rows, id).Some? then Some(Find(rows, id).value.(status := status)) else Find(rows, j))
  {
    if rows != [] {
      FindAfterWithStatus(rows[1..], id, status, j);
      assert WithStatus(rows, id, status)[1..] == WithStatus(rows[1..], id, status);
    }
  }

  /** The table seen as the map id -> row that the store abstracts; the first row of an id wins. */
  function ById(rows: seq<Dock>): map<int, Dock>
  {
    if rows == [] then map[] else ById(rows[1..])[rows[0].id := rows[0]]
  }

  /** One key of the map view: present exactly when some row has it, mapped to the row found. */
  lemma {:induction false} ByIdAt(rows: seq<Dock>, j: int)
    ensures j in ById(rows) <==> Find(rows, j).Some?
    ensures j in ById(rows) ==> ById(rows)[j] == Find(rows, j).value
  {
    if rows != [] {
      ByIdAt(rows[1..], j);
    }
  }

  /** The map view of a status overwrite at one key, or nothing when the key is absent. */
  function SetStatusAt(m: map<int, Dock>, id: int, status: string): map<int, Dock>
  {
    if id in m then m[id := m[id].(status := status)] else m
  }

  /** In the map view, an update is a single-key overwrite of the status, or nothing for a missing id. */
  lemma {:induction false} ByIdAfterWithStatus(rows: seq<Dock>, id: int, status: string)
    ensures ById(WithStatus(rows, id, status)) == SetStatusAt(ById(rows), id, status)
  {
    if rows != [] {
      var r, rest := rows[0], rows[1..];
      ByIdAfterWithStatus(rest, id, status);
      assert WithStatus(rows, id, status)[1..] == WithStatus(rest, id, status);
      var m := ById(rest);
      if r.id == id {
        assert SetStatusAt(m[r.id := r], id, status) == SetStatusAt(m, id, status)[r.id := r.(status := status)];
      } else {
        assert SetStatusAt(m[r.id := r], id, status) == SetStatusAt(m, id, status)[r.id := r];
      }
    }
  }
}

/**
 * The relational store every backend talks to, abstracted as a table of rows
 * in scan order. `reachable` stands for the database answering at all; an
 * unreachable database fails every statement without changing anything.
 */
module Store {
  import opened Wrappers
  import opened Models
  import opened Docks

  datatype StoreError = Unreachable | ConstraintViolation

  /** A row to insert; the store assigns its id. */
  datatype NewDock = NewDock(location: Location, number: int, status: string, name: Option<string>)

  /** The rows a list of inserts produces when ids are assigned from `firstId` upwards. */
  function Materialize(seed: seq<NewDock>, firstId: int): (rows: seq<Dock>)
    ensures |rows| == |seed|
    ensures forall k :: 0 <= k < |seed| ==>
      rows[k] == Dock(firstId + k, seed[k].location, seed[k].number, seed[k].status, seed[k].name)
  {
    seq(|seed|, k requires 0 <= k < |seed| =>
      Dock(firstId + k, seed[k].location, seed[k].number, seed[k].status, seed[k].name))
  }

  /** Materializing one more seed entry appends its row. */
  lemma MaterializeSnoc(seed: seq<NewDock>, i: nat, firstId: int)
    requires i < |seed|
    ensures Materialize(seed[..i + 1], firstId) == Materialize(seed[..i], firstId) + Materialize([seed[i]], firstId + i)
  {
    var lhs := Materialize(seed[..i + 1], firstId);
    var rhs := Materialize(seed[..i], firstId) + Materialize([seed[i]], firstId + i);
    assert |lhs| == |rhs|;
    forall k | 0 <= k < |lhs| ensures lhs[k] == rhs[k] {
      if k == i {
        assert rhs[k] == Materialize([seed[i]], firstId + i)[0];
      }
    }
  }

  /** Whether a new row passes the UNIQUE / NOT NULL constraints of a constrained schema. */
  predicate Admissible(rows: seq<Dock>, d: NewDock)
  {
    && d.name.Some?
    && (forall k :: 0 <= k < |rows| ==> rows[k].location != d.location || rows[k].number != d.number)
    && (forall k :: 0 <= k < |rows| ==> rows[k].name != d.name)
  }

  class Table {
    var rows: seq<Dock>
    /** The id the next insert receives (SERIAL / AUTOINCREMENT). */
    var nextId: int
    var reachable: bool
    /** Whether the schema declares UNIQUE(location, number), UNIQUE(name) and name NOT NULL. */
    var constrained: bool

    ghost predicate Valid()
      reads this
    {
      && UniqueIds(rows)
      && 1 <= nextId
      && (forall k :: 0 <= k < |rows| ==> 1 <= rows[k].id < nextId)
      && (constrained ==> UniqueSeats(rows) && UniqueNames(rows))
    }

    constructor (reachable: bool, constrained: bool)
      ensures Valid()
      ensures rows == [] && nextId == 1
      ensures this.reachable == reachable && this.constrained == constrained
    {
      rows := [];
      nextId := 1;
      this.reachable := reachable;
      this.constrained := constrained;
    }

    /** SELECT * FROM docks. */
    method SelectAll() returns (r: Result<seq<Dock>, StoreError>)
      ensures r == if reachable then Success(rows) else Failure(Unreachable)
    {
      if reachable {
        r := Success(rows);
      } else {
        r := Failure(Unreachable);
      }
    }

    /** SELECT ... WHERE id = ?. */
    method SelectById(id: int) returns (r: Result<Option<Dock>, StoreError>)
      ensures r == if reachable then Success(Find(rows, id)) else Failure(Unreachable)
    {
      if reachable {
        r := Success(Find(rows, id));
      } else {
        r := Failure(Unreachable);
      }
    }

    /** UPDATE docks SET status = ? WHERE id = ?, answering the number of rows affected. */
    method UpdateStatus(id: int, status: string) returns (r: Result<nat, StoreError>)
      requires Valid()
      modifies this
      ensures Valid()
      ensures nextId == old(nextId) && reachable == old(reachable) && constrained == old(constrained)
      ensures !reachable ==> r == Failure(Unreachable) && rows == old(rows)
      ensures reachable ==> rows == WithStatus(old(rows), id, status)
      ensures reachable ==> r == Success(if Find(old(rows), id).Some? then 1 else 0)
    {
      if !reachable {
        r := Failure(Unreachable);
        return;
      }
      var found := Find(rows, id);
      WithStatusKeepsKeys(rows, id, status);
      rows := WithStatus(rows, id, status);
      r := Success(if found.Some? then 1 else 0);
    }

    /** UPDATE docks SET status = ? WHERE id = ? RETURNING *: the updated row, if there was one. */
    method UpdateReturning(id: int, status: string) returns (r: Result<Option<Dock>, StoreError>)
      requires Valid()
      modifies this
      ensures Valid()
      ensures nextId == old(nextId) && reachable == old(reachable) && constrained == old(constrained)
      ensures !reachable ==> r == Failure(Unreachable) && rows == old(rows)
      ensures reachable ==> rows == WithStatus(old(rows), id, status)
      ensures reachable && Find(old(rows), id).None? ==> r == Success(None) && rows == old(rows)
      ensures reachable && Find(old(rows), id).Some? ==>
        r == Success(Some(Find(old(rows), id).value.(status := status))) && Find(rows, id) == r.value
    {
      var before := rows;
      var affected := UpdateStatus(id, status);
      if affected.Failure? {
        return Failure(Unreachable);
      }
      FindAfterWithStatus(before, id, status, id);
      if Find(before, id).None? {
        WithStatusAbsent(before, id, status);
      }
      r := Success(Find(rows, id));
    }

    /** INSERT INTO docks (location, number, status, name), answering the new id. */
    method Insert(d: NewDock) returns (r: Result<int, StoreError>)
      requires Valid()
      modifies this
      ensures Valid()
      ensures reachable == old(reachable) && constrained == old(constrained)
      ensures old(reachable) && (!constrained || Admissible(old(rows), d)) ==>
        && r == Success(old(nextId))
        && rows == old(rows) + Materialize([d], old(nextId))
        && nextId == old(nextId) + 1
      ensures !(old(reachable) && (!constrained || Admissible(old(rows), d))) ==>
        r.Failure? && rows == old(rows) && nextId == old(nextId)
    {
      if !reachable {
        r := Failure(Unreachable);
        return;
      }
      if constrained && !Admissible(rows, d) {
        r := Failure(ConstraintViolation);
        return;
      }
      var row := Dock(nextId, d.location, d.number, d.status, d.name);
      rows := rows + [row];
      r := Success(nextId);
      nextId := nextId + 1;
    }

    /** DROP TABLE IF EXISTS followed by CREATE TABLE: an empty table whose ids restart at 1. */
    method Recreate(constrained: bool) returns (ok: bool)
      requires Valid()
      modifies this
      ensures Valid() && reachable == old(reachable) && ok == reachable
      ensures ok ==> rows == [] && nextId == 1 && this.constrained == constrained
      ensures !ok ==> rows == old(rows) && nextId == old(nextId) && this.constrained == old(this.constrained)
    {
      ok := reachable;
      if ok {
        rows := [];
        nextId := 1;
        this.constrained := constrained;
      }
    }
  }
}
