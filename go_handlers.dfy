/**
 * backend_2/internal/handlers/handlers.go: the HTTP and websocket handlers of
 * the package-based Go server, over the database of GoDatabase and the hub of
 * GoHub (with its register case as intended).
 */
module GoHandlers {
  import opened Wrappers
  import opened Models
  import opened Decimal
  import opened Docks
  import opened Store
  import opened Transport
  import opened GoSql
  import opened GoJson
  import opened GoDatabase
  import opened GoHub

  /** What HandleUpdateDock writes: the dock as JSON, a 400 with its message, or a 500 with the update's error. */
  datatype Response = Json(dock: Dock) | BadRequest(message: string) | ServerError(cause: UpdateError)

  function StatusCode(r: Response): int
  {
    match r
    case Json(_) => 200
    case BadRequest(_) => 400
    case ServerError(_) => 500
  }

  /** The response for a well-formed request, given the table before the update. */
  function UpdateResponse(reachable: bool, rows: seq<Dock>, id: int, status: string): Response
  {
    var a := UpdateAnswer(reachable, rows, id, status);
    if a.Success? then Json(a.value) else ServerError(a.error)
  }

  /**
   * A well-formed request is answered 200 exactly when the status is one of
   * the four and a named dock with the id exists, and then with that dock in
   * its new status; otherwise it is answered 500.
   */
  lemma UpdateResponseMeaning(reachable: bool, rows: seq<Dock>, id: int, status: string)
    ensures StatusCode(UpdateResponse(reachable, rows, id, status)) == 200 <==>
      IsValidStatus(status) && reachable && Find(rows, id).Some? && Find(rows, id).value.name.Some?
    ensures StatusCode(UpdateResponse(reachable, rows, id, status)) in {200, 500}
    ensures UpdateResponse(reachable, rows, id, status).Json? ==>
      UpdateResponse(reachable, rows, id, status).dock == Find(rows, id).value.(status := status)
  {
    UpdateAnswerMeaning(reachable, rows, id, status);
  }

  class Handler {
    const db: Table
    /** The hub; the handlers skip broadcasting when it is nil. */
    const hub: Hub?

    /** The handler and its hub read the same database. */
    ghost predicate Valid()
      reads this, db, hub
    {
      db.Valid() && (hub != null ==> hub.Valid() && hub.db == db)
    }

    /** NewHandler. */
    constructor (db: Table, hub: Hub?)
      requires db.Valid() && (hub != null ==> hub.Valid() && hub.db == db)
      ensures Valid() && this.db == db && this.hub == hub
    {
      this.db := db;
      this.hub := hub;
    }

    /**
     * HandleUpdateDock (PUT /docks/{id}): 400 for an id that is not a decimal
     * int or a body that does not decode, 500 with the error when
     * UpdateDockStatus fails, otherwise the updated dock as JSON and, when
     * there is a hub, the same dock posted as a dock_updated broadcast.
     * `completed` is false when the post never completes (a stalled hub):
     * the handler then blocks after encoding the dock into the response
     * buffer, so the client never receives the 200 and `r` is never delivered.
     */
    method HandleUpdateDock(idText: string, body: Body, net: Network) returns (r: Response, completed: bool)
      requires Valid()
      modifies db, hub, net
      ensures Valid() && db.reachable == old(db.reachable) && db.nextId == old(db.nextId)
      ensures net.broken == old(net.broken)
      ensures Atoi(idText).None? ==> r == BadRequest("Invalid dock ID")
      ensures Atoi(idText).Some? && DecodedStatus(body).None? ==> r == BadRequest("Invalid request body")
      ensures r.BadRequest? ==> db.rows == old(db.rows)
      ensures Atoi(idText).Some? && DecodedStatus(body).Some? ==>
        var id, status := Atoi(idText).value, DecodedStatus(body).value;
        && r == UpdateResponse(old(db.reachable), old(db.rows), id, status)
        && db.rows == if IsValidStatus(status) && old(db.reachable) then WithStatus(old(db.rows), id, status) else old(db.rows)
      ensures !r.Json? || hub == null ==>
        completed && net.outbox == old(net.outbox) && net.closed == old(net.closed)
        && (hub != null ==> hub.clients == old(hub.clients) && hub.stalled == old(hub.stalled))
      ensures r.Json? && hub != null ==>
        && hub.stalled == old(hub.stalled) && completed == !old(hub.stalled)
        && (completed ==>
              && hub.clients == old(hub.clients) - FailingKeys(old(hub.clients), old(net.broken), old(net.closed))
              && net.outbox == AppendTo(old(net.outbox), ConnsOf(old(hub.clients), hub.clients.Keys), DockUpdated(r.dock, Some(0)))
              && net.closed == CloseAll(old(net.closed),
                   ConnsOf(old(hub.clients), FailingKeys(old(hub.clients), old(net.broken), old(net.closed))), Dropped))
      ensures r.Json? && hub != null && !completed ==>
        hub.clients == old(hub.clients) && net.outbox == old(net.outbox) && net.closed == old(net.closed)
    {
      var id := Atoi(idText);
      if id.None? {
        return BadRequest("Invalid dock ID"), true;
      }
      var status := DecodedStatus(body);
      if status.None? {
        return BadRequest("Invalid request body"), true;
      }
      var updated := UpdateDockStatus(db, id.value, status.value);
      if updated.Failure? {
        return ServerError(updated.error), true;
      }
      r := Json(updated.value);
      completed := true;
      if hub != null {
        completed := hub.BroadcastUpdate(updated.value, net);
      }
    }

    /**
     * HandleWebSocket, after the upgrade: the client, with the decimal clock
     * reading `nanos` as its ID, is registered (and greeted with a full sync
     * stamped `registerAt`); the docks are read again and posted as a full
     * sync stamped `syncAt`; the frames the client sends are read and
     * discarded until a read fails, and the client is unregistered. When the
     * second read fails the handler returns at once and the client stays
     * registered with its connection open. A stalled hub blocks the handler
     * at its first post, before anything changes.
     */
    method HandleWebSocket(conn: ConnId, nanos: int, registerAt: int, syncAt: int, net: Network)
      requires Valid() && hub != null
      requires conn !in hub.clients.Values && conn !in net.closed
      modifies hub, net
      ensures Valid() && hub.stalled == old(hub.stalled) && net.broken == old(net.broken)
      ensures old(hub.stalled) ==>
        hub.clients == old(hub.clients) && net.outbox == old(net.outbox) && net.closed == old(net.closed)
      ensures !old(hub.stalled) && ScanAll(db.reachable, db.rows).Failure? ==>
        hub.clients == old(hub.clients)[IntToString(nanos) := conn]
        && net.outbox == old(net.outbox) && net.closed == old(net.closed)
      ensures !old(hub.stalled) && ScanAll(db.reachable, db.rows).Success? ==>
        var docks := ScanAll(db.reachable, db.rows).value;
        && IntToString(nanos) !in hub.clients
        && (forall k :: k in hub.clients ==> k in old(hub.clients) && hub.clients[k] == old(hub.clients)[k])
        && SentTo(net.outbox, conn) == SentTo(old(net.outbox), conn) +
             (if conn in net.broken then [] else [FullSync(docks, Some(registerAt)), FullSync(docks, Some(syncAt))])
        && conn in net.closed
      ensures !old(hub.stalled) && ScanAll(db.reachable, db.rows).Success? ==>
        var docks := ScanAll(db.reachable, db.rows).value;
        var registered := old(hub.clients)[IntToString(nanos) := conn];
        var failing := FailingKeys(registered, old(net.broken), old(net.closed));
        var reached := ConnsOf(registered, (registered - failing).Keys);
        && hub.clients == (registered - failing) - {IntToString(nanos)}
        && net.outbox == AppendTo(AppendTo(old(net.outbox), reached, FullSync(docks, Some(registerAt))),
             reached, FullSync(docks, Some(syncAt)))
        && net.closed == CloseAll(CloseAll(old(net.closed), ConnsOf(registered, failing), Dropped), {conn}, Dropped)
    {
      var id := IntToString(nanos);
      ghost var out0, closed0, clients0 := net.outbox, net.closed, hub.clients;
      var accepted := hub.RegisterIntended(id, conn, registerAt, net);
      if !accepted {
        return;
      }
      var docks := QueryDocks(db);
      if docks.Failure? {
        return;
      }
      BroadcastFate(clients0[id := conn], id, net.broken, closed0, out0, FullSync(docks.value, Some(registerAt)));
      SecondBroadcast(clients0, id, conn, net.broken, closed0, net.outbox, FullSync(docks.value, Some(syncAt)));
      SyncAndServe(id, conn, docks.value, syncAt, net);
    }

    /**
     * The rest of HandleWebSocket once the client is registered and greeted:
     * the full sync stamped `syncAt` is posted and, when the client's reads
     * end, it is unregistered. On entry the client is either still registered
     * with an open connection or was dropped by the greeting.
     */
    method SyncAndServe(id: string, conn: ConnId, docks: seq<Dock>, syncAt: int, net: Network)
      requires Valid() && hub != null && !hub.stalled
      requires id in hub.clients ==> hub.clients[id] == conn && conn !in net.closed
      requires id !in hub.clients ==> conn !in hub.clients.Values && conn in net.closed
      modifies hub, net
      ensures Valid() && !hub.stalled && net.broken == old(net.broken)
      ensures id !in hub.clients
      ensures forall k :: k in hub.clients ==> k in old(hub.clients) && hub.clients[k] == old(hub.clients)[k]
      ensures SentTo(net.outbox, conn) == SentTo(old(net.outbox), conn) +
        (if id in old(hub.clients) && conn !in net.broken then [FullSync(docks, Some(syncAt))] else [])
      ensures conn in net.closed
      ensures var failing := FailingKeys(old(hub.clients), old(net.broken), old(net.closed));
        var survivors := old(hub.clients) - failing;
        && hub.clients == survivors - {id}
        && net.outbox == AppendTo(old(net.outbox), ConnsOf(old(hub.clients), survivors.Keys), FullSync(docks, Some(syncAt)))
        && net.closed == CloseAll(CloseAll(old(net.closed), ConnsOf(old(hub.clients), failing), Dropped), {conn}, Dropped)
    {
      ghost var out1, closed1, clients1 := net.outbox, net.closed, hub.clients;
      ghost var failing := FailingKeys(clients1, net.broken, closed1);
      var _ := hub.BroadcastFullSync(docks, syncAt, net);
      ghost var closed2 := net.closed;
      if id in clients1 {
        BroadcastFate(clients1, id, net.broken, closed1, out1, FullSync(docks, Some(syncAt)));
        if id in failing {
          assert conn in ConnsOf(clients1, failing);
        }
      } else {
        BroadcastSkips(clients1, conn, net.broken, closed1, out1, FullSync(docks, Some(syncAt)));
      }
      var _ := hub.Unregister(id, conn, net);
      CloseOne(closed2, conn, Dropped);
    }
  }
}
