/**
 * backend_2/internal/websocket/hub.go: the Hub keeps the registered clients
 * under their string ids and owns three unbuffered channels (Register,
 * Unregister, Broadcast) served by one Run goroutine. A send on one of those
 * channels is modelled as the matching case of Run executed at once; a send
 * that no goroutine will ever receive makes its sender wait forever, which the
 * methods report by answering `false` and changing nothing.
 *
 * Run's register case writes its full sync by sending on the Broadcast
 * channel that only Run itself receives (no WritePump is started), so after
 * the first registration over a readable table Run waits forever and so does
 * every later sender. `Register` keeps that behaviour; `RegisterIntended`
 * writes the full sync to the clients, and the handlers use it.
 */
module GoHub {
  import opened Wrappers
  import opened Models
  import opened Store
  import opened Transport
  import opened GoSql

  class Hub {
    /** clients: the connection of each registered client, by client ID. */
    var clients: map<string, ConnId>
    /** Whether Run is parked in a send on its own Broadcast channel (it never leaves that state). */
    var stalled: bool
    const db: Table

    /** No connection is registered under two ids. */
    ghost predicate Valid()
      reads this
    {
      Injective(clients)
    }

    /** NewHub: no clients, Run ready to receive. */
    constructor (db: Table)
      ensures Valid() && clients == map[] && !stalled && this.db == db
    {
      clients := map[];
      stalled := false;
      this.db := db;
    }

    /**
     * Run's broadcast case: the message is written to every client; a client
     * whose write fails has its connection closed and is deleted, and the
     * loop goes on with the others.
     */
    method RunBroadcast(m: ServerMessage, net: Network)
      requires Valid()
      modifies this, net
      ensures Valid() && stalled == old(stalled)
      ensures clients == old(clients) - FailingKeys(old(clients), old(net.broken), old(net.closed))
      ensures net.outbox == AppendTo(old(net.outbox), ConnsOf(old(clients), clients.Keys), m)
      ensures net.closed == CloseAll(old(net.closed),
        ConnsOf(old(clients), FailingKeys(old(clients), old(net.broken), old(net.closed))), Dropped)
      ensures net.broken == old(net.broken)
    {
      var failed := net.SendEachClosingFailed(clients, m);
      assert (clients - failed).Keys == clients.Keys - failed;
      clients := clients - failed;
    }

    /** `h.Broadcast <- message`: received by Run unless Run is stalled, in which case the sender waits forever. */
    method Post(m: ServerMessage, net: Network) returns (accepted: bool)
      requires Valid()
      modifies this, net
      ensures Valid() && stalled == old(stalled) && accepted == !old(stalled)
      ensures !accepted ==> clients == old(clients) && net.outbox == old(net.outbox) && net.closed == old(net.closed)
      ensures accepted ==>
        && clients == old(clients) - FailingKeys(old(clients), old(net.broken), old(net.closed))
        && net.outbox == AppendTo(old(net.outbox), ConnsOf(old(clients), clients.Keys), m)
        && net.closed == CloseAll(old(net.closed),
             ConnsOf(old(clients), FailingKeys(old(clients), old(net.broken), old(net.closed))), Dropped)
      ensures net.broken == old(net.broken)
    {
      if stalled {
        return false;
      }
      RunBroadcast(m, net);
      accepted := true;
    }

    /** BroadcastUpdate: posts a dock_updated message whose timestamp is left at zero. */
    method BroadcastUpdate(dock: Dock, net: Network) returns (accepted: bool)
      requires Valid()
      modifies this, net
      ensures Valid() && stalled == old(stalled) && accepted == !old(stalled)
      ensures !accepted ==> clients == old(clients) && net.outbox == old(net.outbox) && net.closed == old(net.closed)
      ensures accepted ==>
        && clients == old(clients) - FailingKeys(old(clients), old(net.broken), old(net.closed))
        && net.outbox == AppendTo(old(net.outbox), ConnsOf(old(clients), clients.Keys), DockUpdated(dock, Some(0)))
        && net.closed == CloseAll(old(net.closed),
             ConnsOf(old(clients), FailingKeys(old(clients), old(net.broken), old(net.closed))), Dropped)
      ensures net.broken == old(net.broken)
    {
      accepted := Post(DockUpdated(dock, Some(0)), net);
    }

    /** BroadcastFullSync: posts a full_sync message stamped with the clock `now` (Unix seconds). */
    method BroadcastFullSync(docks: seq<Dock>, now: int, net: Network) returns (accepted: bool)
      requires Valid()
      modifies this, net
      ensures Valid() && stalled == old(stalled) && accepted == !old(stalled)
      ensures !accepted ==> clients == old(clients) && net.outbox == old(net.outbox) && net.closed == old(net.closed)
      ensures accepted ==>
        && clients == old(clients) - FailingKeys(old(clients), old(net.broken), old(net.closed))
        && net.outbox == AppendTo(old(net.outbox), ConnsOf(old(clients), clients.Keys), FullSync(docks, Some(now)))
        && net.closed == CloseAll(old(net.closed),
             ConnsOf(old(clients), FailingKeys(old(clients), old(net.broken), old(net.closed))), Dropped)
      ensures net.broken == old(net.broken)
    {
      accepted := Post(FullSync(docks, Some(now)), net);
    }

    /**
     * `h.Register <- client` and Run's register case as written: the client
     * is stored under its ID (replacing a client with the same ID); when the
     * docks read succeeds, Run posts the full sync to its own Broadcast
     * channel and waits there for good. Nothing is written to any client.
     */
    method Register(id: string, conn: ConnId) returns (accepted: bool)
      requires Valid() && conn !in clients.Values
      modifies this
      ensures Valid() && accepted == !old(stalled)
      ensures !accepted ==> clients == old(clients) && stalled
      ensures accepted ==> clients == old(clients)[id := conn]
      ensures accepted ==> stalled == ScanAll(db.reachable, db.rows).Success?
    {
      if stalled {
        return false;
      }
      RegisterFresh(clients, id, conn);
      clients := clients[id := conn];
      var docks := QueryDocks(db);
      if docks.Success? {
        stalled := true;
      }
      accepted := true;
    }

    /**
     * Run's register case as intended: the client is stored under its ID and,
     * when the docks read succeeds, the full sync stamped `now` is written to
     * every client, the new one included, as the broadcast case does.
     */
    method RegisterIntended(id: string, conn: ConnId, now: int, net: Network) returns (accepted: bool)
      requires Valid() && conn !in clients.Values
      modifies this, net
      ensures Valid() && stalled == old(stalled) && accepted == !old(stalled)
      ensures !accepted ==> clients == old(clients) && net.outbox == old(net.outbox) && net.closed == old(net.closed)
      ensures accepted && ScanAll(db.reachable, db.rows).Failure? ==>
        clients == old(clients)[id := conn] && net.outbox == old(net.outbox) && net.closed == old(net.closed)
      ensures accepted && ScanAll(db.reachable, db.rows).Success? ==>
        var registered := old(clients)[id := conn];
        && clients == registered - FailingKeys(registered, old(net.broken), old(net.closed))
        && net.outbox == AppendTo(old(net.outbox), ConnsOf(registered, clients.Keys),
             FullSync(ScanAll(db.reachable, db.rows).value, Some(now)))
        && net.closed == CloseAll(old(net.closed),
             ConnsOf(registered, FailingKeys(registered, old(net.broken), old(net.closed))), Dropped)
      ensures net.broken == old(net.broken)
    {
      if stalled {
        return false;
      }
      RegisterFresh(clients, id, conn);
      clients := clients[id := conn];
      var docks := QueryDocks(db);
      if docks.Success? {
        RunBroadcast(FullSync(docks.value, Some(now)), net);
      }
      accepted := true;
    }

    /**
     * `h.Unregister <- client` and Run's unregister case: when a client is
     * stored under the ID it is deleted and the connection of the client
     * passed in is closed; an unknown ID changes nothing.
     */
    method Unregister(id: string, conn: ConnId, net: Network) returns (accepted: bool)
      requires Valid()
      modifies this, net
      ensures Valid() && stalled == old(stalled) && accepted == !old(stalled)
      ensures net.outbox == old(net.outbox) && net.broken == old(net.broken)
      ensures !accepted || id !in old(clients) ==> clients == old(clients) && net.closed == old(net.closed)
      ensures accepted && id in old(clients) ==>
        clients == old(clients) - {id} && net.closed == CloseAll(old(net.closed), {conn}, Dropped)
    {
      if stalled {
        return false;
      }
      if id in clients {
        clients := clients - {id};
        net.Close(conn, Dropped);
        CloseOne(old(net.closed), conn, Dropped);
      }
      accepted := true;
    }
  }

  /** One fresh client on a network where every send succeeds: no key fails, and its key stands for its connection. */
  lemma OneFreshClient(id: string, c: ConnId)
    ensures FailingKeys(map[id := c], {}, map[]) == {}
    ensures ConnsOf(map[id := c], {id}) == {c} && ConnsOf(map[id := c], {}) == {}
    ensures map[id := c].Keys == {id} && map[id := c] - {} == map[id := c]
  {
    assert c in ConnsOf(map[id := c], {id});
  }

  /**
   * The first registration over a readable table, as written: the hub
   * stalls, the new client receives nothing, and a dock update posted
   * afterwards is never received.
   */
  method FirstRegistrationAsWritten(d: Dock) returns (received: seq<ServerMessage>, updatePosted: bool)
    ensures received == [] && !updatePosted
  {
    var db := new Table(true, true);
    var net := new Network({});
    var hub := new Hub(db);
    var _ := hub.Register("1", 0);
    updatePosted := hub.BroadcastUpdate(d, net);
    received := SentTo(net.outbox, 0);
  }

  /** The same registration as intended: the client receives the full sync and then the update. */
  method FirstRegistrationIntended(d: Dock) returns (received: seq<ServerMessage>, updatePosted: bool)
    ensures received == [FullSync([], Some(0)), DockUpdated(d, Some(0))] && updatePosted
  {
    var db := new Table(true, true);
    var net := new Network({});
    var hub := new Hub(db);
    OneFreshClient("1", 0);
    assert ScanAll(db.reachable, db.rows) == Success([]);
    var _ := hub.RegisterIntended("1", 0, 0, net);
    CloseNothing(map[], Dropped);
    assert hub.clients == map["1" := 0] && net.closed == map[];
    assert net.outbox == AppendTo(map[], {0}, FullSync([], Some(0)));
    AppendToAt(map[], {0}, FullSync([], Some(0)), 0);
    ghost var afterSync := net.outbox;
    updatePosted := hub.BroadcastUpdate(d, net);
    assert net.outbox == AppendTo(afterSync, {0}, DockUpdated(d, Some(0)));
    AppendToAt(afterSync, {0}, DockUpdated(d, Some(0)), 0);
    received := SentTo(net.outbox, 0);
  }
}
