/**
 * The Elysia server of backend/src/index.ts: an in-memory TTL cache in front
 * of the dock table, a bounded set of live sockets, the PUT /api/docks/:id
 * handler and the /ws open, message and close callbacks. Wall-clock time is a
 * parameter `now` in milliseconds; each socket is a Transport connection.
 */
module TsBackend {
  import opened Wrappers
  import opened Models
  import opened Docks
  import opened Store
  import opened Transport
  import opened Seeds
  import opened Sets

  const MaxConnections: nat := 1000
  const AllDocksKey: string := "all_docks"
  const AllDocksTtlSeconds: int := 60
  /** WebSocket close code 1013, "try again later". */
  const TryAgainLater: int := 1013

  /** A cached value (null is `None`) and the instant from which it is stale. */
  datatype CacheEntry = CacheEntry(data: Option<seq<Dock>>, expiry: int)

  type CacheMap = map<string, CacheEntry>

  /** What `get` answers at time `now`: the stored value while strictly before expiry, else null. */
  function Lookup(entries: CacheMap, key: string, now: int): Option<seq<Dock>>
  {
    if key in entries && entries[key].expiry > now then entries[key].data else None
  }

  /** The table after `set(key, data, ttlSeconds)` at time `now`. */
  function Stored(entries: CacheMap, key: string, data: Option<seq<Dock>>, ttlSeconds: int, now: int): CacheMap
  {
    entries[key := CacheEntry(data, now + ttlSeconds * 1000)]
  }

  /** Reading after a write: the written key answers `data` until `ttlSeconds` have passed; other keys are untouched. */
  lemma LookupStored(entries: CacheMap, key: string, data: Option<seq<Dock>>, ttlSeconds: int, now: int, k: string, t: int)
    ensures Lookup(Stored(entries, key, data, ttlSeconds, now), k, t) ==
      if k == key then (if t < now + ttlSeconds * 1000 then data else None) else Lookup(entries, k, t)
  {
  }

  /** Expiry is strict: at the expiry instant itself the entry already reads as null. */
  lemma LookupAtExpiry(entries: CacheMap, key: string)
    requires key in entries
    ensures Lookup(entries, key, entries[key].expiry).None?
  {
  }

  /** Once an entry reads as null it stays null as time passes. */
  lemma LookupStaysExpired(entries: CacheMap, key: string, t1: int, t2: int)
    requires t1 <= t2 && Lookup(entries, key, t1).None?
    ensures Lookup(entries, key, t2).None?
  {
  }

  /** The invalidating `set(key, null, 0)` makes every later `get(key)` miss. */
  lemma InvalidatedMisses(entries: CacheMap, key: string, now: int, t: int)
    ensures Lookup(Stored(entries, key, None, 0, now), key, t).None?
  {
    LookupStored(entries, key, None, 0, now, key, t);
  }

  class SimpleCache {
    var entries: CacheMap

    constructor ()
      ensures entries == map[]
    {
      entries := map[];
    }

    method Get(key: string, now: int) returns (r: Option<seq<Dock>>)
      ensures r == Lookup(entries, key, now)
      ensures r.Some? ==> key in entries && entries[key].expiry > now && entries[key].data == r
    {
      if key in entries && entries[key].expiry > now {
        r := entries[key].data;
      } else {
        r := None;
      }
    }

    method Set(key: string, data: Option<seq<Dock>>, ttlSeconds: int, now: int)
      modifies this
      ensures entries == Stored(old(entries), key, data, ttlSeconds, now)
    {
      entries := entries[key := CacheEntry(data, now + ttlSeconds * 1000)];
    }
  }

  /**
   * The cache never serves a stale dock list: whenever "all_docks" reads as a
   * value, that value is the current table.
   */
  ghost predicate Coherent(cache: SimpleCache, table: Table, now: int)
    reads cache, table
  {
    Lookup(cache.entries, AllDocksKey, now) in {None, Some(table.rows)}
  }

  /** Coherence survives the passing of time while the table stays as it is. */
  lemma CoherentLater(entries: CacheMap, rows: seq<Dock>, t1: int, t2: int)
    requires t1 <= t2 && Lookup(entries, AllDocksKey, t1) in {None, Some(rows)}
    ensures Lookup(entries, AllDocksKey, t2) in {None, Some(rows)}
  {
  }

  class ConnectionManager {
    var connections: set<ConnId>

    ghost predicate Valid()
      reads this
    {
      |connections| <= MaxConnections
    }

    constructor ()
      ensures Valid() && connections == {}
    {
      connections := {};
    }

    /** Admits `c` unless 1000 sockets are already registered. */
    method Connect(c: ConnId) returns (admitted: bool)
      requires Valid()
      modifies this
      ensures Valid()
      ensures admitted <==> |old(connections)| < MaxConnections
      ensures connections == if admitted then old(connections) + {c} else old(connections)
    {
      if |connections| >= MaxConnections {
        return false;
      }
      connections := connections + {c};
      admitted := true;
    }

    /** Removes `c`; removing an unregistered socket changes nothing. */
    method Disconnect(c: ConnId)
      requires Valid()
      modifies this
      ensures Valid()
      ensures connections == old(connections) - {c}
    {
      SubsetCardinality(connections - {c}, connections);
      connections := connections - {c};
    }

    /** One iteration of the broadcast loop: send, and disconnect the socket if the send throws. */
    method SendOrDrop(c: ConnId, m: ServerMessage, net: Network) returns (ok: bool)
      modifies this, net
      ensures ok == old(net.Deliverable(c))
      ensures connections == if ok then old(connections) else old(connections) - {c}
      ensures net.outbox == if ok then Deliver(old(net.outbox), c, m) else old(net.outbox)
      ensures net.broken == old(net.broken) && net.closed == old(net.closed)
    {
      ok := net.Send(c, m);
      if !ok {
        connections := connections - {c};
      }
    }

    /**
     * Sends `m` to every registered socket; a socket whose send throws is
     * disconnected and the loop goes on with the others.
     */
    method Broadcast(m: ServerMessage, net: Network)
      requires Valid()
      modifies this, net
      ensures Valid()
      ensures connections == old(connections) - old(net.Failing(connections))
      ensures net.outbox == AppendTo(old(net.outbox), old(connections) - old(net.Failing(connections)), m)
      ensures net.broken == old(net.broken) && net.closed == old(net.closed)
    {
      var pending := connections;
      ghost var all := connections;
      ghost var failing := net.Failing(connections);
      ghost var out0 := net.outbox;
      while pending != {}
        invariant pending <= all
        invariant net.broken == old(net.broken) && net.closed == old(net.closed)
        invariant connections == all - failing * (all - pending)
        invariant net.outbox == AppendTo(out0, (all - pending) - failing, m)
        decreases pending
      {
        var c :| c in pending;
        ghost var done := all - pending;
        var ok := SendOrDrop(c, m, net);
        VisitOne(all, pending, failing, c);
        if ok {
          AppendToOneMore(out0, done - failing, c, m);
        }
        pending := pending - {c};
      }
      SubsetCardinality(connections, all);
    }
  }

  /** The outbox after a full sync of `docks` went to `c` (when `c` accepts sends). */
  function AfterFullSync(outbox: Outbox, c: ConnId, deliverable: bool, docks: seq<Dock>): Outbox
  {
    if deliverable then Deliver(outbox, c, FullSync(docks, None)) else outbox
  }

  /** Why PUT /api/docks/:id throws. */
  datatype PutError = DockNotFound | StoreFailed

  /** The server's module-level state: the store, the cache, the socket registry and the sockets. */
  class App {
    const table: Table
    const cache: SimpleCache
    const manager: ConnectionManager
    const net: Network

    ghost predicate Valid()
      reads this, table, manager
    {
      table.Valid() && manager.Valid()
    }

    constructor (table: Table, net: Network)
      requires table.Valid()
      ensures Valid() && this.table == table && this.net == net
      ensures cache.entries == map[] && manager.connections == {}
    {
      this.table := table;
      this.net := net;
      cache := new SimpleCache();
      manager := new ConnectionManager();
    }

    /** fetchAllDocks: reads every row and caches the list for 60 seconds. */
    method FetchAllDocks(now: int) returns (r: Result<seq<Dock>, StoreError>)
      modifies cache
      ensures r == if table.reachable then Success(table.rows) else Failure(Unreachable)
      ensures cache.entries == if table.reachable
        then Stored(old(cache.entries), AllDocksKey, Some(table.rows), AllDocksTtlSeconds, now)
        else old(cache.entries)
      ensures table.reachable || old(Coherent(cache, table, now)) ==> Coherent(cache, table, now)
    {
      r := table.SelectAll();
      if r.Success? {
        cache.Set(AllDocksKey, Some(r.value), AllDocksTtlSeconds, now);
      }
    }

    /**
     * sendFullSync: the cached list, or a fresh read, sent to `c` as a full_sync
     * without timestamp; a failing read sends nothing.
     */
    method SendFullSync(c: ConnId, now: int)
      modifies cache, net
      ensures old(Coherent(cache, table, now)) ==> Coherent(cache, table, now)
      ensures net.broken == old(net.broken) && net.closed == old(net.closed)
      ensures var hit := old(Lookup(cache.entries, AllDocksKey, now));
        net.outbox == AfterFullSync(old(net.outbox), c, net.Deliverable(c) && (hit.Some? || table.reachable),
          if hit.Some? then hit.value else table.rows)
      ensures old(Coherent(cache, table, now)) ==>
        net.outbox == AfterFullSync(old(net.outbox), c,
          net.Deliverable(c) && (table.reachable || old(Lookup(cache.entries, AllDocksKey, now)).Some?), table.rows)
      ensures old(Lookup(cache.entries, AllDocksKey, now)).Some? ==> cache.entries == old(cache.entries)
    {
      var docks := cache.Get(AllDocksKey, now);
      if docks.None? {
        var fetched := FetchAllDocks(now);
        if fetched.Failure? {
          return;
        }
        docks := Some(fetched.value);
      }
      var _ := net.Send(c, FullSync(docks.value, None));
    }

    /** GET /api/docks: the cached list if any, else a fresh read. */
    method GetDocks(now: int) returns (r: Result<seq<Dock>, StoreError>)
      modifies cache
      ensures old(Coherent(cache, table, now)) ==> Coherent(cache, table, now)
      ensures var hit := old(Lookup(cache.entries, AllDocksKey, now));
        r == if hit.Some? then Success(hit.value) else if table.reachable then Success(table.rows) else Failure(Unreachable)
      ensures old(Coherent(cache, table, now)) ==> r == if table.reachable || old(Lookup(cache.entries, AllDocksKey, now)).Some?
        then Success(table.rows) else Failure(Unreachable)
    {
      var cached := cache.Get(AllDocksKey, now);
      if cached.Some? {
        return Success(cached.value);
      }
      r := FetchAllDocks(now);
    }

    /**
     * PUT /api/docks/:id: UPDATE ... RETURNING; no row means "Dock not found"
     * with nothing broadcast and the cache kept. On success the returned row
     * is broadcast as dock_updated, then the cached list is invalidated.
     */
    method UpdateDock(id: int, status: string, now: int) returns (r: Result<Dock, PutError>)
      requires Valid()
      modifies table, cache, manager, net
      ensures Valid()
      ensures old(Coherent(cache, table, now)) || r.Success? ==> Coherent(cache, table, now)
      ensures table.reachable == old(table.reachable) && table.nextId == old(table.nextId)
      ensures !old(table.reachable) ==> r == Failure(StoreFailed)
      ensures old(table.reachable) && Find(old(table.rows), id).None? ==> r == Failure(DockNotFound)
      ensures r.Failure? ==>
        && table.rows == old(table.rows) && cache.entries == old(cache.entries)
        && manager.connections == old(manager.connections) && net.outbox == old(net.outbox)
      ensures r.Success? <==> old(table.reachable) && Find(old(table.rows), id).Some?
      ensures r.Success? ==>
        && r.value == Find(old(table.rows), id).value.(status := status)
        && table.rows == WithStatus(old(table.rows), id, status)
        && Find(table.rows, id) == Some(r.value)
        && cache.entries == Stored(old(cache.entries), AllDocksKey, None, 0, now)
        && manager.connections == old(manager.connections) - old(net.Failing(manager.connections))
        && net.outbox == AppendTo(old(net.outbox),
             old(manager.connections) - old(net.Failing(manager.connections)), DockUpdated(r.value, None))
      ensures net.broken == old(net.broken) && net.closed == old(net.closed)
    {
      var updated := table.UpdateReturning(id, status);
      if updated.Failure? {
        return Failure(StoreFailed);
      }
      var row := updated.value;
      if row.None? {
        return Failure(DockNotFound);
      }
      manager.Broadcast(DockUpdated(row.value, None), net);
      cache.Set(AllDocksKey, None, 0, now);
      r := Success(row.value);
    }

    /** /ws open: an admitted socket gets a full sync; the 1001st is closed with 1013. */
    method Open(c: ConnId, now: int)
      requires Valid()
      modifies cache, manager, net
      ensures Valid()
      ensures old(Coherent(cache, table, now)) ==> Coherent(cache, table, now)
      ensures net.broken == old(net.broken)
      ensures |old(manager.connections)| < MaxConnections ==>
        && manager.connections == old(manager.connections) + {c}
        && net.closed == old(net.closed)
        && (var hit := old(Lookup(cache.entries, AllDocksKey, now));
            net.outbox == AfterFullSync(old(net.outbox), c, net.Deliverable(c) && (hit.Some? || table.reachable),
              if hit.Some? then hit.value else table.rows))
      ensures |old(manager.connections)| >= MaxConnections ==>
        && manager.connections == old(manager.connections)
        && net.outbox == old(net.outbox) && cache.entries == old(cache.entries)
        && net.closed == if c in old(net.closed) then old(net.closed)
           else old(net.closed)[c := CloseFrame(TryAgainLater, "Maximum connections reached")]
    {
      var admitted := manager.Connect(c);
      if admitted {
        SendFullSync(c, now);
      } else {
        net.Close(c, CloseFrame(TryAgainLater, "Maximum connections reached"));
      }
    }

    /**
     * /ws message: ping is answered with pong, request_full_sync with a full
     * sync; unparsable text and any other type are ignored, the socket stays open.
     */
    method OnMessage(c: ConnId, frame: Frame, now: int)
      modifies cache, net
      ensures old(Coherent(cache, table, now)) ==> Coherent(cache, table, now)
      ensures net.broken == old(net.broken) && net.closed == old(net.closed)
      ensures Classify(frame) == PingRequest ==>
        net.outbox == (if net.Deliverable(c) then Deliver(old(net.outbox), c, Pong) else old(net.outbox))
      ensures Classify(frame) == SyncRequest ==>
        var hit := old(Lookup(cache.entries, AllDocksKey, now));
        net.outbox == AfterFullSync(old(net.outbox), c, net.Deliverable(c) && (hit.Some? || table.reachable),
          if hit.Some? then hit.value else table.rows)
      ensures Classify(frame) == NoRequest ==> net.outbox == old(net.outbox) && cache.entries == old(cache.entries)
    {
      match Classify(frame)
      case PingRequest =>
        var _ := net.Send(c, Pong);
      case SyncRequest =>
        SendFullSync(c, now);
      case NoRequest =>
    }

    /** /ws close: the socket leaves the registry. */
    method OnClose(c: ConnId)
      requires Valid()
      modifies manager
      ensures Valid()
      ensures manager.connections == old(manager.connections) - {c}
    {
      manager.Disconnect(c);
    }

    /**
     * initDb: an empty table receives the 24 seed docks in one transaction;
     * a table that already holds docks, or an unreachable store, is left alone.
     */
    method InitDb()
      requires Valid() && !table.constrained
      modifies table
      ensures Valid()
      ensures table.reachable == old(table.reachable) && table.constrained == old(table.constrained)
      ensures old(table.reachable) && old(table.rows) == [] ==>
        table.rows == Materialize(TsSeed(), old(table.nextId)) && table.nextId == old(table.nextId) + |TsSeed()|
      ensures !(old(table.reachable) && old(table.rows) == []) ==>
        table.rows == old(table.rows) && table.nextId == old(table.nextId)
    {
      var existing := table.SelectAll();
      if existing.Failure? || existing.value != [] {
        return;
      }
      var seed := TsSeed();
      var first := table.nextId;
      var i := 0;
      while i < |seed|
        invariant 0 <= i <= |seed|
        invariant table.Valid() && table.reachable && !table.constrained
        invariant table.rows == Materialize(seed[..i], first) && table.nextId == first + i
        decreases |seed| - i
      {
        var _ := table.Insert(seed[i]);
        MaterializeSnoc(seed, i, first);
        i := i + 1;
      }
      assert seed[..i] == seed;
    }
  }
}
