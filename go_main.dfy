/**
 * backend_2/main.go: the single-file Go server. Its ConnectionManager keeps
 * the open sockets under string ids and, per id, a queue of text messages
 * waiting for a client that reconnects under that id; a periodic pass drops
 * queued messages older than 24 hours. The websocket session, the dock
 * update and the PUT handler sit on top of it.
 */
module GoMain {
  import opened Wrappers
  import opened Models
  import opened Decimal
  import opened Docks
  import opened Store
  import opened Transport
  import opened Sequences
  import opened Sets
  import opened GoSql
  import opened GoJson

  const MaxConnections: nat := 1000
  const NanosPerSecond: int := 1_000_000_000
  /** maxQueueAge, 24 hours, in nanoseconds (a Go time.Duration). */
  const MaxQueueAge: int := 24 * 60 * 60 * NanosPerSecond

  // ---------------------------------------------------------------------------
  // Message queues and one cleanup pass
  // ---------------------------------------------------------------------------

  /**
   * A queued text message as the cleanup pass sees it: the raw text, and the
   * number in its "timestamp" member when the text parses as a JSON object
   * whose "timestamp" is a number (None when it does not parse, or the member
   * is missing or not a number).
   */
  datatype QueuedMessage = QueuedMessage(text: string, timestamp: Option<real>)

  /** Go's int64(f) conversion of a float in range: truncation toward zero. */
  function Truncate(t: real): (r: int)
    ensures 0.0 <= t ==> r as real <= t < r as real + 1.0
    ensures t < 0.0 ==> r as real - 1.0 < t <= r as real
  {
    if t >= 0.0 then t.Floor else -((-t).Floor)
  }

  /**
   * The cleanup test at `now` (Unix nanoseconds): the message carries a
   * numeric timestamp, and the time since that second, truncated, is under
   * 24 hours.
   */
  predicate Young(msg: QueuedMessage, now: int)
  {
    msg.timestamp.Some? && now - Truncate(msg.timestamp.value) * NanosPerSecond < MaxQueueAge
  }

  /** The messages of `queue` that one cleanup pass at `now` keeps, in their order. */
  function Kept(queue: seq<QueuedMessage>, now: int): seq<QueuedMessage>
  {
    if queue == [] then []
    else
      var last := queue[|queue| - 1];
      Kept(queue[..|queue| - 1], now) + (if Young(last, now) then [last] else [])
  }

  /** A pass keeps exactly the young messages, in their original order, each as often as it was queued. */
  lemma {:induction false} KeptMembers(queue: seq<QueuedMessage>, now: int)
    ensures Subsequence(Kept(queue, now), queue)
    ensures forall m :: m in Kept(queue, now) <==> m in queue && Young(m, now)
    ensures forall m :: multiset(Kept(queue, now))[m] == if Young(m, now) then multiset(queue)[m] else 0
  {
    if queue != [] {
      var init, last := queue[..|queue| - 1], queue[|queue| - 1];
      assert queue == init + [last];
      assert multiset(queue) == multiset(init) + multiset{last};
      assert forall m :: m in queue <==> m in init || m == last;
      KeptMembers(init, now);
      if Young(last, now) {
        assert Kept(queue, now) == Kept(init, now) + [last];
        SubsequenceSnoc(Kept(init, now), init, last);
      } else {
        assert Kept(queue, now) == Kept(init, now);
        SubsequenceExtend(Kept(init, now), init, last);
      }
    }
  }

  /**
   * A later pass absorbs an earlier one: whatever is young at the later time
   * was young before. With equal times this is idempotence.
   */
  lemma {:induction false} KeptLater(queue: seq<QueuedMessage>, earlier: int, later: int)
    requires earlier <= later
    ensures Kept(Kept(queue, earlier), later) == Kept(queue, later)
  {
    if queue != [] {
      var init, last := queue[..|queue| - 1], queue[|queue| - 1];
      KeptLater(init, earlier, later);
      var k := Kept(init, earlier);
      if Young(last, earlier) {
        assert Kept(queue, earlier) == k + [last];
        assert (k + [last])[..|k + [last]| - 1] == k;
        assert Kept(k + [last], later) == Kept(k, later) + (if Young(last, later) then [last] else []);
      } else {
        assert Kept(queue, earlier) == k;
        assert !Young(last, later);
      }
    }
  }

  /** The inner loop of cleanupQueues: rebuild one queue from its young messages. */
  method KeepYoung(queue: seq<QueuedMessage>, now: int) returns (newQueue: seq<QueuedMessage>)
    ensures newQueue == Kept(queue, now)
  {
    newQueue := [];
    var i := 0;
    while i < |queue|
      invariant 0 <= i <= |queue|
      invariant newQueue == Kept(queue[..i], now)
    {
      var msg := queue[i];
      if msg.timestamp.Some? {
        var msgTime := Truncate(msg.timestamp.value);
        if now - msgTime * NanosPerSecond < MaxQueueAge {
          newQueue := newQueue + [msg];
        }
      }
      assert queue[..i + 1][..i] == queue[..i];
      i := i + 1;
    }
    assert queue[..|queue|] == queue;
  }

  /**
   * The queues while a pass is under way: the ids in `done` are cleaned
   * (and gone if nothing young was left), the others are as they were.
   */
  function CleanedOn(queues: map<string, seq<QueuedMessage>>, done: set<string>, now: int): map<string, seq<QueuedMessage>>
  {
    map id | id in queues && (id !in done || Kept(queues[id], now) != []) ::
      if id in done then Kept(queues[id], now) else queues[id]
  }

  /** The queues after one full cleanup pass at `now`. */
  function CleanedQueues(queues: map<string, seq<QueuedMessage>>, now: int): map<string, seq<QueuedMessage>>
  {
    CleanedOn(queues, queues.Keys, now)
  }

  lemma CleanedOnNothing(queues: map<string, seq<QueuedMessage>>, now: int)
    ensures CleanedOn(queues, {}, now) == queues
  {
    assert CleanedOn(queues, {}, now).Keys == queues.Keys;
  }

  /** Cleaning one more id: its queue is replaced by the kept messages, or deleted when none are kept. */
  lemma CleanedOnOneMore(queues: map<string, seq<QueuedMessage>>, done: set<string>, id: string, now: int)
    requires id in queues && id !in done
    ensures id in CleanedOn(queues, done, now) && CleanedOn(queues, done, now)[id] == queues[id]
    ensures CleanedOn(queues, done + {id}, now) ==
      if Kept(queues[id], now) == [] then CleanedOn(queues, done, now) - {id}
      else CleanedOn(queues, done, now)[id := Kept(queues[id], now)]
  {
    var before, after := CleanedOn(queues, done, now), CleanedOn(queues, done + {id}, now);
    var expected := if Kept(queues[id], now) == [] then before - {id} else before[id := Kept(queues[id], now)];
    assert after.Keys == expected.Keys;
  }

  /**
   * After a pass, an id keeps a queue exactly when it had a young message;
   * that queue is non-empty and is the young messages of the old queue, in order.
   */
  lemma CleanedQueuesKeep(queues: map<string, seq<QueuedMessage>>, now: int, id: string)
    ensures id in CleanedQueues(queues, now) <==> id in queues && exists m :: m in queues[id] && Young(m, now)
    ensures id in CleanedQueues(queues, now) ==>
      && CleanedQueues(queues, now)[id] != []
      && Subsequence(CleanedQueues(queues, now)[id], queues[id])
      && (forall m :: m in CleanedQueues(queues, now)[id] <==> m in queues[id] && Young(m, now))
      && (forall m :: multiset(CleanedQueues(queues, now)[id])[m] == if Young(m, now) then multiset(queues[id])[m] else 0)
  {
    if id in queues {
      var kept := Kept(queues[id], now);
      KeptMembers(queues[id], now);
      if exists m :: m in queues[id] && Young(m, now) {
        var m :| m in queues[id] && Young(m, now);
        assert m in kept;
      }
      if kept != [] {
        assert kept[0] in kept;
      }
    }
  }

  /** One id after a pass: kept exactly when it had kept messages, and then holding them. */
  lemma CleanedAt(queues: map<string, seq<QueuedMessage>>, now: int, id: string)
    ensures id in CleanedQueues(queues, now) <==> id in queues && Kept(queues[id], now) != []
    ensures id in CleanedQueues(queues, now) ==> CleanedQueues(queues, now)[id] == Kept(queues[id], now)
  {
  }

  /** A later pass absorbs an earlier one over the whole table of queues. */
  lemma CleanedQueuesLater(queues: map<string, seq<QueuedMessage>>, earlier: int, later: int)
    requires earlier <= later
    ensures CleanedQueues(CleanedQueues(queues, earlier), later) == CleanedQueues(queues, later)
  {
    var once := CleanedQueues(queues, earlier);
    var twice, direct := CleanedQueues(once, later), CleanedQueues(queues, later);
    forall id
      ensures (id in twice <==> id in direct) && (id in twice ==> twice[id] == direct[id])
    {
      CleanedAt(queues, earlier, id);
      CleanedAt(once, later, id);
      CleanedAt(queues, later, id);
      if id in queues {
        KeptLater(queues[id], earlier, later);
      }
    }
    assert twice.Keys == direct.Keys;
  }

  // ---------------------------------------------------------------------------
  // Flushing a queue to a reconnecting client
  // ---------------------------------------------------------------------------

  /** A queue flushed to a reconnecting client: each text as it was queued. */
  function Verbatims(queue: seq<QueuedMessage>): (r: seq<ServerMessage>)
    ensures |r| == |queue|
    ensures forall k :: 0 <= k < |queue| ==> r[k] == Verbatim(queue[k].text)
  {
    seq(|queue|, k requires 0 <= k < |queue| => Verbatim(queue[k].text))
  }

  /** The loop of connect that writes the queued messages; write errors are ignored. */
  method SendQueued(conn: ConnId, queue: seq<QueuedMessage>, net: Network)
    modifies net
    ensures net.outbox == SendAllTo(old(net.outbox), conn, Verbatims(queue), old(net.Deliverable(conn)))
    ensures net.broken == old(net.broken) && net.closed == old(net.closed)
  {
    ghost var d := net.Deliverable(conn);
    ghost var out0 := net.outbox;
    var i := 0;
    while i < |queue|
      invariant 0 <= i <= |queue|
      invariant net.broken == old(net.broken) && net.closed == old(net.closed)
      invariant net.outbox == SendAllTo(out0, conn, Verbatims(queue[..i]), d)
    {
      var _ := net.Send(conn, Verbatim(queue[i].text));
      SendAllToTwice(out0, conn, Verbatims(queue[..i]), [Verbatim(queue[i].text)], d);
      assert Verbatims(queue[..i]) + [Verbatim(queue[i].text)] == Verbatims(queue[..i + 1]);
      i := i + 1;
    }
    assert queue[..|queue|] == queue;
  }

  // ---------------------------------------------------------------------------
  // The connection manager
  // ---------------------------------------------------------------------------

  /** The sockets registered under the ids of `order`, in that order. */
  function ConnsInOrder(connections: map<string, ConnId>, order: seq<string>): (r: seq<ConnId>)
    requires forall k :: 0 <= k < |order| ==> order[k] in connections
    ensures |r| == |order| && forall k :: 0 <= k < |order| ==> r[k] == connections[order[k]]
  {
    seq(|order|, k requires 0 <= k < |order| => connections[order[k]])
  }

  /**
   * The ConnectionManager guards its two maps with one sync.Mutex. broadcast
   * holds it while it writes, and on a failed write calls disconnect, which
   * locks the same mutex again; a Go mutex is not reentrant, so that call
   * never returns and the mutex is never released. `stalled` records that
   * state. From then on every method that locks the mutex waits forever,
   * which the methods model by changing nothing (and `Connect` by answering
   * `completed == false`).
   */
  class ConnectionManager {
    var connections: map<string, ConnId>
    var messageQueues: map<string, seq<QueuedMessage>>
    /** Whether a broadcast is blocked for good inside disconnect, holding the mutex. */
    var stalled: bool
    const db: Table

    /** At most 1000 sockets are registered, and no socket under two ids. */
    ghost predicate Valid()
      reads this
    {
      |connections| <= MaxConnections && Injective(connections)
    }

    /** NewConnectionManager, without the two background tickers. */
    constructor (db: Table)
      ensures Valid() && connections == map[] && messageQueues == map[] && !stalled && this.db == db
    {
      connections := map[];
      messageQueues := map[];
      stalled := false;
      this.db := db;
    }

    /**
     * connect: refuses with "" when 1000 sockets are registered. Otherwise the
     * socket is registered under the decimal clock reading `nanos` (an id
     * already in use is taken over), any queue kept for that id is written to
     * it in order and deleted, and the id is answered. On a stalled manager
     * the call never completes.
     */
    method Connect(conn: ConnId, nanos: int, net: Network) returns (id: string, completed: bool)
      requires Valid() && conn !in connections.Values
      modifies this, net
      ensures Valid() && stalled == old(stalled) && completed == !old(stalled)
      ensures net.broken == old(net.broken) && net.closed == old(net.closed)
      ensures old(stalled) || |old(connections)| >= MaxConnections ==>
        && connections == old(connections) && messageQueues == old(messageQueues)
        && net.outbox == old(net.outbox)
      ensures !old(stalled) && |old(connections)| >= MaxConnections ==> id == ""
      ensures !old(stalled) && |old(connections)| < MaxConnections ==>
        && id == IntToString(nanos) && id != ""
        && connections == old(connections)[id := conn]
        && messageQueues == old(messageQueues) - {id}
        && net.outbox == SendAllTo(old(net.outbox), conn,
             if id in old(messageQueues) then Verbatims(old(messageQueues)[id]) else [], old(net.Deliverable(conn)))
    {
      if stalled {
        return "", false;
      }
      completed := true;
      if |connections| >= MaxConnections {
        return "", true;
      }
      id := IntToString(nanos);
      RegisterFresh(connections, id, conn);
      connections := connections[id := conn];
      if id in messageQueues {
        SendQueued(conn, messageQueues[id], net);
        messageQueues := messageQueues - {id};
      }
    }

    /** disconnect: closes and forgets the socket of a known id; an unknown id changes nothing. */
    method Disconnect(id: string, net: Network)
      requires Valid()
      modifies this, net
      ensures Valid() && stalled == old(stalled) && messageQueues == old(messageQueues)
      ensures net.outbox == old(net.outbox) && net.broken == old(net.broken)
      ensures old(stalled) ==> connections == old(connections) && net.closed == old(net.closed)
      ensures !old(stalled) ==>
        && connections == old(connections) - {id}
        && net.closed == if id in old(connections) then CloseAll(old(net.closed), {old(connections)[id]}, Dropped)
             else old(net.closed)
    {
      if stalled {
        return;
      }
      if id in connections {
        var conn := connections[id];
        net.Close(conn, Dropped);
        CloseOne(old(net.closed), conn, Dropped);
        RemoveKeysCardinality(connections, {id});
        connections := connections - {id};
      } else {
        RemoveAbsent(connections, id);
      }
    }

    /**
     * broadcast as written, visiting the ids in `order` (one iteration order
     * of the map): each socket is written in turn until a write fails. The
     * failing write calls disconnect, which never returns, so the manager
     * stalls: the failing socket stays registered and open, and the sockets
     * after it get nothing. A stalled manager's broadcast waits at its own Lock.
     */
    method Broadcast(m: ServerMessage, order: seq<string>, net: Network)
      requires Valid() && Lists(order, connections.Keys)
      modifies this, net
      ensures Valid() && connections == old(connections) && messageQueues == old(messageQueues)
      ensures net.broken == old(net.broken) && net.closed == old(net.closed)
      ensures old(stalled) ==> stalled && net.outbox == old(net.outbox)
      ensures !old(stalled) ==>
        var conns := ConnsInOrder(old(connections), order);
        var reached := FirstFailure(conns, old(net.broken), old(net.closed));
        && net.outbox == DeliverEach(old(net.outbox), conns[..reached], m)
        && stalled == (reached < |conns|)
    {
      if stalled {
        return;
      }
      var ok := net.SendInOrder(ConnsInOrder(connections, order), m);
      stalled := !ok;
    }

    /**
     * broadcast as evidently intended: a socket whose write fails is closed
     * and forgotten without locking again, and the loop goes on with the others.
     */
    method BroadcastIntended(m: ServerMessage, net: Network)
      requires Valid()
      modifies this, net
      ensures Valid() && stalled == old(stalled) && messageQueues == old(messageQueues)
      ensures connections == old(connections) - FailingKeys(old(connections), old(net.broken), old(net.closed))
      ensures net.outbox == AppendTo(old(net.outbox), ConnsOf(old(connections), connections.Keys), m)
      ensures net.closed == CloseAll(old(net.closed),
        ConnsOf(old(connections), FailingKeys(old(connections), old(net.broken), old(net.closed))), Dropped)
      ensures net.broken == old(net.broken)
    {
      var failed := net.SendEachClosingFailed(connections, m);
      RemoveKeysCardinality(connections, failed);
      assert (connections - failed).Keys == connections.Keys - failed;
      connections := connections - failed;
    }

    /** One cleanupQueues pass at `now` (Unix nanoseconds), without the hourly ticker; a stalled manager never runs it. */
    method CleanupQueues(now: int)
      modifies this
      ensures messageQueues == if old(stalled) then old(messageQueues) else CleanedQueues(old(messageQueues), now)
      ensures connections == old(connections) && stalled == old(stalled)
    {
      if stalled {
        return;
      }
      ghost var queues := messageQueues;
      var pending := messageQueues.Keys;
      CleanedOnNothing(queues, now);
      while pending != {}
        invariant pending <= queues.Keys
        invariant messageQueues == CleanedOn(queues, queues.Keys - pending, now)
        invariant connections == old(connections) && stalled == old(stalled)
        decreases pending
      {
        var id :| id in pending;
        CleanedOnOneMore(queues, queues.Keys - pending, id, now);
        var newQueue := KeepYoung(messageQueues[id], now);
        if newQueue == [] {
          messageQueues := messageQueues - {id};
        } else {
          messageQueues := messageQueues[id := newQueue];
        }
        assert (queues.Keys - pending) + {id} == queues.Keys - (pending - {id});
        pending := pending - {id};
      }
      assert queues.Keys - pending == queues.Keys;
    }

    /**
     * updateDockStatus: the UPDATE, then a re-read of the row, then a
     * dock_updated broadcast of the re-read row (no timestamp), visiting the
     * ids in `order`. An UPDATE that matches no row succeeds, the re-read then
     * fails and nothing is broadcast; so does a row whose name is NULL, after
     * its status was written. The database calls do not take the mutex, so
     * on a stalled manager the row is still written before the broadcast blocks.
     */
    method UpdateDockStatus(id: int, status: string, order: seq<string>, net: Network) returns (err: Option<FetchError>)
      requires Valid() && db.Valid() && Lists(order, connections.Keys)
      modifies this, db, net
      ensures Valid() && db.Valid() && messageQueues == old(messageQueues) && connections == old(connections)
      ensures db.reachable == old(db.reachable) && db.nextId == old(db.nextId)
      ensures db.rows == if old(db.reachable) then WithStatus(old(db.rows), id, status) else old(db.rows)
      ensures err == (var r := ScanOne(db.reachable, Find(db.rows, id)); if r.Success? then None else Some(r.error))
      ensures err.None? <==> old(db.reachable) && Find(old(db.rows), id).Some? && Find(old(db.rows), id).value.name.Some?
      ensures net.broken == old(net.broken) && net.closed == old(net.closed)
      ensures err.Some? || old(stalled) ==> stalled == old(stalled) && net.outbox == old(net.outbox)
      ensures err.None? ==> Find(db.rows, id).value == Find(old(db.rows), id).value.(status := status)
      ensures err.None? && !old(stalled) ==>
        var conns := ConnsInOrder(old(connections), order);
        var reached := FirstFailure(conns, old(net.broken), old(net.closed));
        && net.outbox == DeliverEach(old(net.outbox), conns[..reached],
             DockUpdated(Find(old(db.rows), id).value.(status := status), None))
        && stalled == (reached < |conns|)
    {
      var affected := db.UpdateStatus(id, status);
      if affected.Failure? {
        return Some(QueryFailed);
      }
      FindAfterWithStatus(old(db.rows), id, status, id);
      var dock := QueryDockById(db, id);
      if dock.Failure? {
        return Some(dock.error);
      }
      Broadcast(DockUpdated(dock.value, None), order, net);
      err := None;
    }
  }

  // ---------------------------------------------------------------------------
  // PUT /api/docks/{id}
  // ---------------------------------------------------------------------------

  /**
   * handleUpdateDockStatus, past authentication, with `order` the iteration
   * order of the connections: 400 for an id that is not a decimal int or a
   * body that does not decode, 500 when updateDockStatus fails, 200 once the
   * broadcast returns. The status itself is not checked here. `answer` is
   * None when the broadcast stalls (or the manager already had), since the
   * handler then never writes a response.
   */
  method HandleUpdateDockStatus(cm: ConnectionManager, idText: string, body: Body, order: seq<string>, net: Network)
    returns (answer: Option<int>)
    requires cm.Valid() && cm.db.Valid() && Lists(order, cm.connections.Keys)
    modifies cm, cm.db, net
    ensures cm.Valid() && cm.db.Valid() && cm.connections == old(cm.connections)
    ensures net.broken == old(net.broken) && net.closed == old(net.closed)
    ensures Atoi(idText).None? || DecodedStatus(body).None? ==>
      && answer == Some(400) && cm.db.rows == old(cm.db.rows) && cm.stalled == old(cm.stalled)
      && net.outbox == old(net.outbox)
    ensures Atoi(idText).Some? && DecodedStatus(body).Some? ==>
      var id, status := Atoi(idText).value, DecodedStatus(body).value;
      var found := old(cm.db.reachable) && Find(old(cm.db.rows), id).Some? && Find(old(cm.db.rows), id).value.name.Some?;
      var reached := FirstFailure(ConnsInOrder(old(cm.connections), order), old(net.broken), old(net.closed));
      && cm.db.rows == (if old(cm.db.reachable) then WithStatus(old(cm.db.rows), id, status) else old(cm.db.rows))
      && cm.stalled == (old(cm.stalled) || (found && reached < |order|))
      && (answer == Some(500) <==> !found)
      && (answer == Some(200) <==> found && !cm.stalled)
      && (answer.None? <==> found && cm.stalled)
      && (!found || old(cm.stalled) ==> net.outbox == old(net.outbox))
      && (found && !old(cm.stalled) ==>
            net.outbox == DeliverEach(old(net.outbox), ConnsInOrder(old(cm.connections), order)[..reached],
              DockUpdated(Find(old(cm.db.rows), id).value.(status := status), None)))
  {
    var id := Atoi(idText);
    if id.None? {
      return Some(400);
    }
    var status := DecodedStatus(body);
    if status.None? {
      return Some(400);
    }
    var err := cm.UpdateDockStatus(id.value, status.value, order, net);
    if err.Some? {
      return Some(500);
    }
    if cm.stalled {
      return None;
    }
    answer := Some(200);
  }

  // ---------------------------------------------------------------------------
  // The websocket session
  // ---------------------------------------------------------------------------

  /** One frame read from the socket, with the clock (Unix seconds) when it is handled. */
  datatype Incoming = Incoming(frame: Frame, at: int)

  /** The answer to one frame: pong to ping, a fresh full_sync to request_full_sync, nothing otherwise. */
  function Reply(fetched: Result<seq<Dock>, FetchError>, msg: Incoming): seq<ServerMessage>
  {
    match Classify(msg.frame)
    case PingRequest => [Pong]
    case SyncRequest => if fetched.Success? then [FullSync(fetched.value, Some(msg.at))] else []
    case NoRequest => []
  }

  /** The answers to a sequence of frames, in order. */
  function Replies(fetched: Result<seq<Dock>, FetchError>, incoming: seq<Incoming>): seq<ServerMessage>
  {
    if incoming == [] then []
    else Replies(fetched, incoming[..|incoming| - 1]) + Reply(fetched, incoming[|incoming| - 1])
  }

  /** The full sync sent right after admission, when the read succeeds. */
  function Greeting(fetched: Result<seq<Dock>, FetchError>, at: int): seq<ServerMessage>
  {
    if fetched.Success? then [FullSync(fetched.value, Some(at))] else []
  }

  /** Answers compose: the session's answers are the answers to each part in turn. */
  lemma {:induction false} RepliesAppend(fetched: Result<seq<Dock>, FetchError>, a: seq<Incoming>, b: seq<Incoming>)
    ensures Replies(fetched, a + b) == Replies(fetched, a) + Replies(fetched, b)
    decreases |b|
  {
    if b != [] {
      var init, last := b[..|b| - 1], b[|b| - 1];
      assert (a + b)[..|a + b| - 1] == a + init;
      RepliesAppend(fetched, a, init);
    } else {
      assert a + b == a;
    }
  }

  /** A malformed frame, or one of any other type, is skipped: it adds no answer and the session reads on. */
  lemma RepliesSkipIgnored(fetched: Result<seq<Dock>, FetchError>, a: seq<Incoming>, x: Incoming)
    requires Classify(x.frame) == NoRequest
    ensures Replies(fetched, a + [x]) == Replies(fetched, a)
  {
    assert (a + [x])[..|a + [x]| - 1] == a;
    assert Replies(fetched, a + [x]) == Replies(fetched, a) + [];
  }

  /**
   * Every answer is a pong or a full sync of what the read returned, one at
   * most per frame; ping is always answered.
   */
  lemma {:induction false} RepliesShape(fetched: Result<seq<Dock>, FetchError>, incoming: seq<Incoming>)
    ensures |Replies(fetched, incoming)| <= |incoming|
    ensures forall m :: m in Replies(fetched, incoming) ==>
      m == Pong || (fetched.Success? && m.FullSync? && m.docks == fetched.value)
    ensures (forall k :: 0 <= k < |incoming| ==> Classify(incoming[k].frame) == PingRequest) ==>
      Replies(fetched, incoming) == seq(|incoming|, _ => Pong)
  {
    if incoming != [] {
      var init := incoming[..|incoming| - 1];
      RepliesShape(fetched, init);
      assert forall k :: 0 <= k < |init| ==> init[k] == incoming[k];
    }
  }

  /** The answer to one frame read from `conn`: the switch on its "type". */
  method Answer(cm: ConnectionManager, conn: ConnId, msg: Incoming, net: Network)
    modifies net
    ensures net.outbox == SendAllTo(old(net.outbox), conn, Reply(ScanAll(cm.db.reachable, cm.db.rows), msg),
      old(net.Deliverable(conn)))
    ensures net.broken == old(net.broken) && net.closed == old(net.closed)
  {
    match Classify(msg.frame)
    case PingRequest =>
      var _ := net.Send(conn, Pong);
    case SyncRequest =>
      var docks := QueryDocks(cm.db);
      if docks.Success? {
        var _ := net.Send(conn, FullSync(docks.value, Some(msg.at)));
      }
    case NoRequest =>
  }

  /** The read loop of handleWebSocket: each frame is answered in turn until reading stops. */
  method AnswerAll(cm: ConnectionManager, conn: ConnId, incoming: seq<Incoming>, net: Network)
    modifies net
    ensures net.outbox == SendAllTo(old(net.outbox), conn, Replies(ScanAll(cm.db.reachable, cm.db.rows), incoming),
      old(net.Deliverable(conn)))
    ensures net.broken == old(net.broken) && net.closed == old(net.closed)
  {
    ghost var fetched := ScanAll(cm.db.reachable, cm.db.rows);
    ghost var d := net.Deliverable(conn);
    ghost var out0 := net.outbox;
    var i := 0;
    while i < |incoming|
      invariant 0 <= i <= |incoming|
      invariant net.broken == old(net.broken) && net.closed == old(net.closed)
      invariant net.outbox == SendAllTo(out0, conn, Replies(fetched, incoming[..i]), d)
    {
      Answer(cm, conn, incoming[i], net);
      SendAllToTwice(out0, conn, Replies(fetched, incoming[..i]), Reply(fetched, incoming[i]), d);
      assert incoming[..i + 1][..i] == incoming[..i];
      i := i + 1;
    }
    assert incoming[..|incoming|] == incoming;
  }

  /** Everything an admitted socket is sent after its queue: the greeting, then the answers. */
  function Session(fetched: Result<seq<Dock>, FetchError>, openedAt: int, incoming: seq<Incoming>): seq<ServerMessage>
  {
    Greeting(fetched, openedAt) + Replies(fetched, incoming)
  }

  /** An admitted socket's session: the initial full sync, then the read loop. */
  method Serve(cm: ConnectionManager, conn: ConnId, openedAt: int, incoming: seq<Incoming>, net: Network)
    modifies net
    ensures net.outbox == SendAllTo(old(net.outbox), conn, Session(ScanAll(cm.db.reachable, cm.db.rows), openedAt, incoming),
      old(net.Deliverable(conn)))
    ensures net.broken == old(net.broken) && net.closed == old(net.closed)
  {
    ghost var d := net.Deliverable(conn);
    ghost var out0 := net.outbox;
    var fetched := QueryDocks(cm.db);
    if fetched.Success? {
      var _ := net.Send(conn, FullSync(fetched.value, Some(openedAt)));
    }
    AnswerAll(cm, conn, incoming, net);
    SendAllToTwice(out0, conn, Greeting(fetched, openedAt), Replies(fetched, incoming), d);
  }

  /**
   * The session of a socket registered under `id`, ended by the deferred
   * disconnect. The session's writes do not take the mutex; on a stalled
   * manager the disconnect never completes and the socket stays registered.
   */
  method Admitted(cm: ConnectionManager, conn: ConnId, id: string, openedAt: int, incoming: seq<Incoming>, net: Network)
    requires cm.Valid() && id in cm.connections && cm.connections[id] == conn
    modifies cm, net
    ensures cm.Valid() && cm.messageQueues == old(cm.messageQueues) && cm.stalled == old(cm.stalled)
    ensures net.outbox == SendAllTo(old(net.outbox), conn, Session(ScanAll(cm.db.reachable, cm.db.rows), openedAt, incoming),
      old(net.Deliverable(conn)))
    ensures net.broken == old(net.broken)
    ensures old(cm.stalled) ==> cm.connections == old(cm.connections) && net.closed == old(net.closed)
    ensures !old(cm.stalled) ==>
      cm.connections == old(cm.connections) - {id} && net.closed == CloseAll(old(net.closed), {conn}, Dropped)
  {
    Serve(cm, conn, openedAt, incoming, net);
    cm.Disconnect(id, net);
  }

  /**
   * handleWebSocket for an upgraded socket `conn`: a refused socket is closed
   * and sent nothing. An admitted one gets its queued messages, then a full
   * sync (when the read succeeds), then the answers to the frames it sends;
   * when reading stops, the id is disconnected. `nanos` is the clock used for
   * the id, `openedAt` the clock (Unix seconds) of the first full sync. On a
   * stalled manager the handler waits in connect for good: nothing is sent
   * and the socket is left open.
   */
  method HandleWebSocket(cm: ConnectionManager, conn: ConnId, nanos: int, openedAt: int, incoming: seq<Incoming>, net: Network)
    requires cm.Valid() && conn !in cm.connections.Values
    modifies cm, net
    ensures cm.Valid() && net.broken == old(net.broken) && cm.stalled == old(cm.stalled)
    ensures old(cm.stalled) ==>
      && cm.connections == old(cm.connections) && cm.messageQueues == old(cm.messageQueues)
      && net.outbox == old(net.outbox) && net.closed == old(net.closed)
    ensures !old(cm.stalled) ==> net.closed == CloseAll(old(net.closed), {conn}, Dropped)
    ensures !old(cm.stalled) && |old(cm.connections)| >= MaxConnections ==>
      && cm.connections == old(cm.connections) && cm.messageQueues == old(cm.messageQueues)
      && net.outbox == old(net.outbox)
    ensures !old(cm.stalled) && |old(cm.connections)| < MaxConnections ==>
      var id := IntToString(nanos);
      && cm.connections == old(cm.connections) - {id}
      && cm.messageQueues == old(cm.messageQueues) - {id}
      && net.outbox == SendAllTo(old(net.outbox), conn,
           (if id in old(cm.messageQueues) then Verbatims(old(cm.messageQueues)[id]) else [])
           + Session(ScanAll(cm.db.reachable, cm.db.rows), openedAt, incoming),
           old(net.Deliverable(conn)))
  {
    ghost var d := net.Deliverable(conn);
    ghost var out0 := net.outbox;
    var id, completed := cm.Connect(conn, nanos, net);
    if !completed {
      return;
    }
    if id == "" {
      net.Close(conn, Dropped);
      CloseOne(old(net.closed), conn, Dropped);
      return;
    }
    ghost var queued := if id in old(cm.messageQueues) then Verbatims(old(cm.messageQueues)[id]) else [];
    Admitted(cm, conn, id, openedAt, incoming, net);
    SendAllToTwice(out0, conn, queued, Session(ScanAll(cm.db.reachable, cm.db.rows), openedAt, incoming), d);
    UpdateThenRemove(old(cm.connections), id, conn);
  }

  // ---------------------------------------------------------------------------
  // A broken socket during a broadcast
  // ---------------------------------------------------------------------------

  /** The dock both scenarios update: southeast dock 1, named, available. */
  const ScenarioDock: Dock := Dock(1, Southeast, 1, "available", Some("Dock 1"))

  /**
   * A manager over a table holding ScenarioDock, with socket 10 (broken)
   * connected at clock 1 and socket 11 at clock 2, under the ids "1" and "2".
   */
  method TwoSockets() returns (cm: ConnectionManager, net: Network)
    ensures fresh(cm) && fresh(net) && fresh(cm.db)
    ensures cm.Valid() && cm.db.Valid() && cm.db.reachable && cm.db.rows == [ScenarioDock] && !cm.stalled
    ensures cm.connections == map["1" := 10, "2" := 11]
    ensures net.broken == {10} && net.closed == map[] && SentTo(net.outbox, 11) == []
  {
    var db := new Table(true, false);
    var _ := db.Insert(NewDock(Southeast, 1, "available", Some("Dock 1")));
    assert db.rows == [ScenarioDock];
    net := new Network({10});
    cm := new ConnectionManager(db);
    assert IntToString(1) == "1" && IntToString(2) == "2";
    var _, _ := cm.Connect(10, 1, net);
    assert cm.connections == map["1" := 10] && SentTo(net.outbox, 11) == [];
    var _, _ := cm.Connect(11, 2, net);
  }

  /**
   * A PUT setting dock 1 to "occupied" over the two sockets, as written: the
   * broadcast reaches the broken socket first and stalls. The request is
   * never answered, socket 11 receives nothing, socket 10 stays registered
   * and open, and a later disconnect of it never takes effect.
   */
  method BrokenSocketAsWritten() returns (answer: Option<int>, received: seq<ServerMessage>, stillRegistered: bool, closed: bool)
    ensures answer.None? && received == []
    ensures stillRegistered && !closed
  {
    var cm, net := TwoSockets();
    assert Lists(["1", "2"], cm.connections.Keys);
    AtoiOfIntToString(1);
    assert Atoi("1") == Some(1) && DecodedStatus(Decoded(Text("occupied"))) == Some("occupied");
    assert Find(cm.db.rows, 1) == Some(ScenarioDock);
    assert FirstFailure(ConnsInOrder(cm.connections, ["1", "2"]), net.broken, net.closed) == 0;
    ghost var out0 := net.outbox;
    answer := HandleUpdateDockStatus(cm, "1", Decoded(Text("occupied")), ["1", "2"], net);
    assert cm.stalled && answer.None?;
    assert net.outbox == DeliverEach(out0, [], DockUpdated(ScenarioDock.(status := "occupied"), None));
    cm.Disconnect("1", net);
    received := SentTo(net.outbox, 11);
    stillRegistered := "1" in cm.connections;
    closed := 10 in net.closed;
  }

  /**
   * The same update broadcast as intended: socket 11 receives it, and the
   * broken socket 10 is closed and forgotten.
   */
  method BrokenSocketIntended() returns (received: seq<ServerMessage>, stillRegistered: bool, closed: bool)
    ensures received == [DockUpdated(ScenarioDock.(status := "occupied"), None)] && !stillRegistered && closed
  {
    var cm, net := TwoSockets();
    var m := DockUpdated(ScenarioDock.(status := "occupied"), None);
    ghost var registry, out0 := cm.connections, net.outbox;
    BroadcastFate(registry, "1", net.broken, net.closed, out0, m);
    BroadcastFate(registry, "2", net.broken, net.closed, out0, m);
    cm.BroadcastIntended(m, net);
    received := SentTo(net.outbox, 11);
    stillRegistered := "1" in cm.connections;
    closed := 10 in net.closed;
  }
}
