/**
 * api/index.py: the aiohttp backend. Live sockets are kept in a set for the
 * lifetime of their handler; PUT /api/docks/{id} checks the body's status
 * against the four statuses before touching the table, then stores it and
 * sends the update to every socket in the set's iteration order.
 */
module PyApi {
  import opened Wrappers
  import opened Models
  import opened Docks
  import opened Store
  import opened Transport
  import opened PyStore
  import opened Sets

  /** A connection listed without repeats occurs once in the list's multiset exactly when it is listed. */
  lemma {:induction false} DistinctCount(order: seq<ConnId>, c: ConnId)
    requires forall i, j :: 0 <= i < j < |order| ==> order[i] != order[j]
    ensures multiset(order)[c] == if c in order then 1 else 0
  {
    if order != [] {
      var init, last := order[..|order| - 1], order[|order| - 1];
      assert order == init + [last];
      DistinctCount(init, c);
      assert last !in init;
    }
  }

  /** A broadcast that reaches the end of the set's order gives each listed socket the message once, and no one else anything. */
  lemma BroadcastOnce(outbox: Outbox, order: seq<ConnId>, sockets: set<ConnId>, m: ServerMessage, c: ConnId)
    requires Lists(order, sockets)
    ensures SentTo(DeliverEach(outbox, order, m), c) == SentTo(outbox, c) + (if c in sockets then [m] else [])
  {
    DistinctCount(order, c);
    DeliverEachAt(outbox, order, m, c);
    assert Copies(m, 0) == [];
    assert Copies(m, 1) == [m];
  }

  /**
   * The checks update_dock makes on the request body: the status to store,
   * or the error answer. Text that is not JSON makes request.json() raise;
   * `'status' in data` raises TypeError on `null`, a number or a boolean, is a
   * membership test on an array and a substring test on a string, and when it
   * holds there, indexing with 'status' raises TypeError. Every exception
   * raised here ends in the generic 500.
   */
  function CheckBody(body: Body): Result<string, HttpReply>
  {
    match body
    case Undecodable => Failure(Unexpected)
    case NullBody => Failure(Unexpected)
    case NumberOrBool => Failure(Unexpected)
    case ArrayOrString(containsStatus) =>
      if containsStatus then Failure(Unexpected) else Failure(Error(400, "Status is required"))
    case Decoded(Absent) => Failure(Error(400, "Status is required"))
    case Decoded(Null) => Failure(Error(400, "Invalid status"))
    case Decoded(NotText) => Failure(Error(400, "Invalid status"))
    case Decoded(Text(t)) => if IsValidStatus(t) then Success(t) else Failure(Error(400, "Invalid status"))
  }

  /** The answer of update_dock's generic `except Exception`. */
  const Unexpected: HttpReply := Error(500, "An unexpected error occurred")

  /**
   * The answer of update_dock before its broadcast: 500 for a path id that
   * int() rejects (raised outside the handler's try), the body checks, 500
   * when the table cannot be read, 404 for an unknown id, otherwise the dock
   * with its new status as id, location, number and status.
   */
  function UpdateOutcome(dockId: Option<int>, body: Body, reachable: bool, rows: seq<Dock>): HttpReply
  {
    if dockId.None? then Error(500, "Internal Server Error")
    else match CheckBody(body)
      case Failure(e) => e
      case Success(status) => Stored(reachable, rows, dockId.value, status)
  }

  /** The answer of the session block of update_dock for a checked status, before its broadcast. */
  function Stored(reachable: bool, rows: seq<Dock>, id: int, status: string): HttpReply
  {
    if !reachable then Error(500, "database error")
    else if Find(rows, id).None? then Error(404, "Dock not found")
    else Ok(AsSent(Find(rows, id).value.(status := status)))
  }

  /**
   * update_dock succeeds exactly for a valid id, a body whose status is one
   * of the four, and a known dock, and then answers that dock in its new
   * status. The body is judged before the table is read: a rejected body
   * gets the same answer whatever the table holds.
   */
  lemma UpdateOutcomeMeaning(dockId: Option<int>, body: Body, reachable: bool, rows: seq<Dock>, reachable': bool, rows': seq<Dock>)
    ensures UpdateOutcome(dockId, body, reachable, rows).Ok? <==>
      && dockId.Some? && body.Decoded? && body.status.Text? && IsValidStatus(body.status.text)
      && reachable && Find(rows, dockId.value).Some?
    ensures UpdateOutcome(dockId, body, reachable, rows).Ok? ==>
      UpdateOutcome(dockId, body, reachable, rows).dock == AsSent(Find(rows, dockId.value).value.(status := body.status.text))
    ensures UpdateOutcome(dockId, body, reachable, rows).Ok? ==> UpdateOutcome(dockId, body, reachable, rows).dock.status in ValidStatuses
    ensures CheckBody(body).Failure? ==> UpdateOutcome(dockId, body, reachable, rows) == UpdateOutcome(dockId, body, reachable', rows')
    ensures dockId.Some? && (body == Decoded(Absent) || body == ArrayOrString(false)) ==>
      UpdateOutcome(dockId, body, reachable, rows) == Error(400, "Status is required")
    ensures dockId.Some? && (body.Undecodable? || body.NullBody? || body.NumberOrBool? || body == ArrayOrString(true)) ==>
      UpdateOutcome(dockId, body, reachable, rows) == Unexpected
    ensures UpdateOutcome(dockId, body, reachable, rows) == Error(404, "Dock not found") <==>
      dockId.Some? && CheckBody(body).Success? && reachable && Find(rows, dockId.value).None?
  {
  }

  class Connections {
    /** ws_connections: the sockets whose handler is running. */
    var sockets: set<ConnId>

    constructor ()
      ensures sockets == {}
    {
      sockets := {};
    }

    /** The start of websocket_handler: the prepared socket is added to the set. */
    method Opened(ws: ConnId)
      modifies this
      ensures sockets == old(sockets) + {ws}
    {
      sockets := sockets + {ws};
    }

    /** The `finally` of websocket_handler: set.remove, which raises KeyError when the socket is not in the set. */
    method Closed(ws: ConnId) returns (raised: bool)
      modifies this
      ensures raised == (ws !in old(sockets))
      ensures sockets == old(sockets) - {ws}
    {
      raised := ws !in sockets;
      sockets := sockets - {ws};
    }
  }

  /**
   * update_dock (PUT /api/docks/{dock_id}), with `order` the iteration order
   * of ws_connections: the path id and the body are checked first, then the
   * status is stored and the update sent (StoreAndSend). On success the
   * answer is the data every socket was sent.
   */
  method UpdateDock(conns: Connections, db: Table, dockId: Option<int>, body: Body, order: seq<ConnId>, net: Network)
    returns (r: HttpReply)
    requires db.Valid() && Lists(order, conns.sockets)
    modifies db, net
    ensures db.Valid() && db.reachable == old(db.reachable) && db.nextId == old(db.nextId)
    ensures db.constrained == old(db.constrained)
    ensures var outcome := UpdateOutcome(dockId, body, old(db.reachable), old(db.rows));
      && db.rows == (if outcome.Ok? then WithStatus(old(db.rows), dockId.value, outcome.dock.status) else old(db.rows))
      && var reached := FirstFailure(order, old(net.broken), old(net.closed));
      && r == (if outcome.Ok? && reached < |order| then Unexpected else outcome)
      && net.outbox == (if outcome.Ok? then DeliverEach(old(net.outbox), order[..reached], DockUpdated(outcome.dock, None))
                        else old(net.outbox))
    ensures net.broken == old(net.broken) && net.closed == old(net.closed)
  {
    if dockId.None? {
      return Error(500, "Internal Server Error");
    }
    var status := CheckBody(body);
    if status.Failure? {
      return status.error;
    }
    r := StoreAndSend(db, dockId.value, status.value, order, net);
  }

  /**
   * The session block of update_dock: look the dock up (404 when absent),
   * store the status and commit, then send dock_updated to the sockets in
   * `order`; the first send that raises ends the loop and turns the answer
   * into a 500 after the commit.
   */
  method StoreAndSend(db: Table, id: int, status: string, order: seq<ConnId>, net: Network) returns (r: HttpReply)
    requires db.Valid()
    modifies db, net
    ensures db.Valid() && db.reachable == old(db.reachable) && db.nextId == old(db.nextId)
    ensures db.constrained == old(db.constrained)
    ensures var outcome := Stored(old(db.reachable), old(db.rows), id, status);
      && db.rows == (if outcome.Ok? then WithStatus(old(db.rows), id, status) else old(db.rows))
      && var reached := FirstFailure(order, old(net.broken), old(net.closed));
      && r == (if outcome.Ok? && reached < |order| then Unexpected else outcome)
      && net.outbox == (if outcome.Ok? then DeliverEach(old(net.outbox), order[..reached], DockUpdated(outcome.dock, None))
                        else old(net.outbox))
    ensures net.broken == old(net.broken) && net.closed == old(net.closed)
  {
    var found := db.SelectById(id);
    if found.Failure? {
      return Error(500, "database error");
    }
    if found.value.None? {
      return Error(404, "Dock not found");
    }
    var updated := db.UpdateReturning(id, status);
    var dock := AsSent(updated.value.value);
    var ok := net.SendInOrder(order, DockUpdated(dock, None));
    r := if ok then Ok(dock) else Unexpected;
  }

  /**
   * websocket_handler: the socket is in the set while its handler runs and
   * is taken out when it ends. A socket opened, sent an update, closed and
   * followed by a second update receives the first update only.
   */
  method Lifetime(d: Dock) returns (received: seq<ServerMessage>, second: HttpReply)
    ensures received == [DockUpdated(AsSent(d.(id := 1, status := "occupied")), None)]
    ensures second == Ok(AsSent(d.(id := 1, status := "deiced")))
  {
    var db, conns, net := OpenUpdateClose(d);
    LastWriteWins([d.(id := 1)], 1, "occupied", "deiced");
    second := UpdateDock(conns, db, Some(1), Decoded(Text("deiced")), [], net);
    received := SentTo(net.outbox, 7);
  }

  /** The first half of Lifetime: socket 7 opens, dock 1 is set to "occupied", socket 7 closes. */
  method OpenUpdateClose(d: Dock) returns (db: Table, conns: Connections, net: Network)
    ensures fresh(db) && fresh(net) && db.Valid() && db.reachable && db.rows == WithStatus([d.(id := 1)], 1, "occupied")
    ensures conns.sockets == {} && 7 in net.closed
    ensures SentTo(net.outbox, 7) == [DockUpdated(AsSent(d.(id := 1, status := "occupied")), None)]
  {
    db := OneDock(d);
    net := new Network({});
    conns := new Connections();
    conns.Opened(7);
    assert Lists([7], conns.sockets);
    ghost var m := DockUpdated(AsSent(d.(id := 1, status := "occupied")), None);
    var first := UpdateDock(conns, db, Some(1), Decoded(Text("occupied")), [7], net);
    assert [7][..1] == [7];
    BroadcastOnce(map[], [7], {7}, m, 7);
    var _ := conns.Closed(7);
    net.Close(7, Dropped);
  }
}
