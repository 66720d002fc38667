/**
 * main.py: the FastAPI backend. Live clients are kept in a Python list in
 * connection order; PUT /api/docks/{id} stores any status text and then
 * sends the update to the listed sockets one after another; the websocket
 * endpoint answers "ping" and "request_full_sync".
 *
 * Two names the code uses are never defined: `WebSocketDisconnect` (not
 * imported) and the module-level `db` of send_full_sync. Evaluating either
 * raises NameError, so as written a full-sync request always raises and a
 * socket whose loop ends is never taken off the list. The model keeps both
 * behaviours (`WebsocketEndpointAsWritten`, and a null `db`) next to the
 * intended ones (`WebsocketEndpoint` over a real table).
 */
module PyMain {
  import opened Wrappers
  import opened Models
  import opened Docks
  import opened Store
  import opened Transport
  import opened PyStore

  /** The exceptions that can end the receive loop of websocket_endpoint. */
  datatype PyError =
    | BadFrame       // json.loads fails, or the payload is not an object, so message["type"] fails
    | MissingType    // message["type"] on an object without that key: KeyError
    | NameError      // a name the code uses is not defined
    | DatabaseError  // the docks query raises
    | SendFailed     // a send on a closed or failed socket raises

  /** list.remove: the list without the first occurrence of `x` (unchanged when there is none). */
  function RemoveFirst(s: seq<ConnId>, x: ConnId): seq<ConnId>
  {
    if s == [] then []
    else if s[0] == x then s[1..]
    else [s[0]] + RemoveFirst(s[1..], x)
  }

  /**
   * Removing takes away exactly one occurrence when there is one, and so a
   * socket listed once is gone afterwards: a second removal raises.
   */
  lemma RemoveFirstCounts(s: seq<ConnId>, x: ConnId)
    ensures multiset(RemoveFirst(s, x)) == multiset(s) - multiset{x}
    ensures x !in s ==> RemoveFirst(s, x) == s
    ensures x in s ==> |RemoveFirst(s, x)| == |s| - 1
    ensures multiset(s)[x] <= 1 ==> x !in RemoveFirst(s, x)
  {
    RemoveFirstMultiset(s, x);
    RemoveFirstAbsent(s, x);
    if x in s {
      assert |multiset(RemoveFirst(s, x))| == |multiset(s)| - 1;
    }
  }

  lemma {:induction false} RemoveFirstMultiset(s: seq<ConnId>, x: ConnId)
    ensures multiset(RemoveFirst(s, x)) == multiset(s) - multiset{x}
  {
    if s != [] {
      assert s == [s[0]] + s[1..];
      assert multiset(s) == multiset{s[0]} + multiset(s[1..]);
      if s[0] != x {
        RemoveFirstMultiset(s[1..], x);
        assert multiset(RemoveFirst(s, x)) == multiset{s[0]} + multiset(RemoveFirst(s[1..], x));
      }
    }
  }

  lemma {:induction false} RemoveFirstAbsent(s: seq<ConnId>, x: ConnId)
    ensures x !in s ==> RemoveFirst(s, x) == s
  {
    if s != [] && x !in s {
      assert x !in s[1..];
      RemoveFirstAbsent(s[1..], x);
      assert s == [s[0]] + s[1..];
    }
  }

  /** Removing the socket just appended, when it was not listed before, gives back the earlier list. */
  lemma {:induction false} ConnectThenDisconnect(s: seq<ConnId>, x: ConnId)
    requires x !in s
    ensures RemoveFirst(s + [x], x) == s
  {
    if s != [] {
      assert (s + [x])[1..] == s[1..] + [x];
      ConnectThenDisconnect(s[1..], x);
    }
  }

  /** The full sync send_full_sync sends, or the exception it raises; a null `db` is the undefined name of main.py as written. */
  function Sync(db: Table?): Result<ServerMessage, PyError>
    reads db
  {
    if db == null then Failure(NameError)
    else if !db.reachable then Failure(DatabaseError)
    else Success(FullSync(AllAsSent(db.rows), None))
  }

  /** What the endpoint sends back for one frame, or the exception the frame raises. */
  function Reply(f: Frame, sync: Result<ServerMessage, PyError>): Result<seq<ServerMessage>, PyError>
  {
    match f
    case Malformed => Failure(BadFrame)
    case Message(None) => Failure(MissingType)
    case Message(Some(t)) =>
      if t == "ping" then Success([Pong])
      else if t == "request_full_sync" then (if sync.Success? then Success([sync.value]) else Failure(sync.error))
      else Success([])
  }

  /** The receive loop after some frames: what it has sent, and the exception that stopped it, if any. */
  datatype Exchange = Exchange(sent: seq<ServerMessage>, raised: Option<PyError>)

  /**
   * The receive loop over `frames`, with every send to the socket succeeding
   * exactly when `deliverable`: frames are answered in order until one raises.
   */
  function Session(frames: seq<Frame>, sync: Result<ServerMessage, PyError>, deliverable: bool): Exchange
    decreases |frames|
  {
    if frames == [] then Exchange([], None)
    else
      var prev := Session(frames[..|frames| - 1], sync, deliverable);
      if prev.raised.Some? then prev
      else match Reply(frames[|frames| - 1], sync)
        case Failure(e) => Exchange(prev.sent, Some(e))
        case Success(out) =>
          if out != [] && !deliverable then Exchange(prev.sent, Some(SendFailed))
          else Exchange(prev.sent + out, None)
  }

  /** A frame is answered without an exception: it raises nothing, and its answer, if any, can be sent. */
  predicate Answered(f: Frame, sync: Result<ServerMessage, PyError>, deliverable: bool)
  {
    Reply(f, sync).Success? && (deliverable || Reply(f, sync).value == [])
  }

  /** The answers to `frames`, one after another (a frame that raises contributes nothing). */
  function Answers(frames: seq<Frame>, sync: Result<ServerMessage, PyError>): seq<ServerMessage>
    decreases |frames|
  {
    if frames == [] then []
    else
      var r := Reply(frames[|frames| - 1], sync);
      Answers(frames[..|frames| - 1], sync) + (if r.Success? then r.value else [])
  }

  /**
   * The loop runs through all frames exactly when every frame is answered,
   * and then it has sent the answers in frame order; a loop that stopped has
   * sent what the frames before the failing one asked for.
   */
  lemma {:induction false} SessionMeaning(frames: seq<Frame>, sync: Result<ServerMessage, PyError>, deliverable: bool)
    ensures Session(frames, sync, deliverable).raised.None? <==>
      forall i :: 0 <= i < |frames| ==> Answered(frames[i], sync, deliverable)
    ensures Session(frames, sync, deliverable).raised.None? ==> Session(frames, sync, deliverable).sent == Answers(frames, sync)
    ensures Session(frames, sync, deliverable).raised.Some? ==>
      exists k :: 0 <= k < |frames| && !Answered(frames[k], sync, deliverable) &&
        Session(frames, sync, deliverable).sent == Answers(frames[..k], sync)
  {
    if frames != [] {
      var init, last := frames[..|frames| - 1], frames[|frames| - 1];
      SessionMeaning(init, sync, deliverable);
      var prev := Session(init, sync, deliverable);
      assert forall i :: 0 <= i < |init| ==> init[i] == frames[i];
      if prev.raised.Some? {
        var k :| 0 <= k < |init| && !Answered(init[k], sync, deliverable) && prev.sent == Answers(init[..k], sync);
        assert init[..k] == frames[..k];
      } else if !Answered(last, sync, deliverable) {
        assert frames[..|frames| - 1] == init;
      }
    }
  }

  /** Once the loop has raised, later frames are never read. */
  lemma {:induction false} SessionStops(frames: seq<Frame>, k: nat, sync: Result<ServerMessage, PyError>, deliverable: bool)
    requires k <= |frames| && Session(frames[..k], sync, deliverable).raised.Some?
    ensures Session(frames, sync, deliverable) == Session(frames[..k], sync, deliverable)
    decreases |frames| - k
  {
    if k < |frames| {
      assert frames[..k + 1][..k] == frames[..k];
      SessionStops(frames, k + 1, sync, deliverable);
    } else {
      assert frames[..k] == frames;
    }
  }

  /**
   * With send_full_sync as written the socket is only ever sent pong: every
   * full-sync request raises NameError before anything is sent.
   */
  lemma {:induction false} OnlyPongsAsWritten(frames: seq<Frame>, deliverable: bool)
    ensures forall i :: 0 <= i < |Session(frames, Failure(NameError), deliverable).sent| ==>
      Session(frames, Failure(NameError), deliverable).sent[i] == Pong
    ensures Message(Some("request_full_sync")) in frames ==>
      Session(frames, Failure(NameError), deliverable).raised.Some?
  {
    if frames != [] {
      var init := frames[..|frames| - 1];
      OnlyPongsAsWritten(init, deliverable);
      assert frames == init + [frames[|frames| - 1]];
    }
  }

  class ConnectionManager {
    /** active_connections: the connected sockets, in connection order. */
    var active: seq<ConnId>

    constructor ()
      ensures active == []
    {
      active := [];
    }

    /** connect: accept the socket and append it to the list. */
    method Connect(ws: ConnId)
      modifies this
      ensures active == old(active) + [ws]
    {
      active := active + [ws];
    }

    /** disconnect: list.remove, which raises ValueError when the socket is not listed. */
    method Disconnect(ws: ConnId) returns (raised: bool)
      modifies this
      ensures raised == (ws !in old(active))
      ensures active == RemoveFirst(old(active), ws)
    {
      raised := ws !in active;
      active := RemoveFirst(active, ws);
    }

    /**
     * broadcast: sends `m` to the listed sockets in order; the first send
     * that raises ends the loop and the exception reaches the caller.
     * `ok` says whether every send went through.
     */
    method Broadcast(m: ServerMessage, net: Network) returns (ok: bool)
      modifies net
      ensures ok == (FirstFailure(active, old(net.broken), old(net.closed)) == |active|)
      ensures net.outbox == DeliverEach(old(net.outbox), active[..FirstFailure(active, old(net.broken), old(net.closed))], m)
      ensures net.broken == old(net.broken) && net.closed == old(net.closed)
    {
      ok := net.SendInOrder(active, m);
    }

    /** send_full_sync: reads every dock and sends them as one full sync to `ws`; `raised` is the exception, if any. */
    method SendFullSync(ws: ConnId, db: Table?, net: Network) returns (raised: Option<PyError>)
      modifies net
      ensures Sync(db).Failure? ==> raised == Some(Sync(db).error) && net.outbox == old(net.outbox)
      ensures Sync(db).Success? ==> raised == (if old(net.Deliverable(ws)) then None else Some(SendFailed))
      ensures Sync(db).Success? ==> net.outbox == SendAllTo(old(net.outbox), ws, [Sync(db).value], old(net.Deliverable(ws)))
      ensures net.broken == old(net.broken) && net.closed == old(net.closed)
    {
      if db == null {
        return Some(NameError);
      }
      var docks := db.SelectAll();
      if docks.Failure? {
        return Some(DatabaseError);
      }
      var ok := net.Send(ws, FullSync(AllAsSent(docks.value), None));
      raised := if ok then None else Some(SendFailed);
    }
  }

  /** The messages a frame asks for, or none when it raises. */
  function Asked(f: Frame, sync: Result<ServerMessage, PyError>): seq<ServerMessage>
  {
    if Reply(f, sync).Success? then Reply(f, sync).value else []
  }

  /** One iteration of the receive loop: answer the frame `f`, or raise. */
  method Answer(cm: ConnectionManager, ws: ConnId, f: Frame, db: Table?, net: Network) returns (raised: Option<PyError>)
    modifies net
    ensures raised == (if Reply(f, Sync(db)).Failure? then Some(Reply(f, Sync(db)).error)
                       else if Answered(f, Sync(db), old(net.Deliverable(ws))) then None else Some(SendFailed))
    ensures net.outbox == SendAllTo(old(net.outbox), ws, Asked(f, Sync(db)), old(net.Deliverable(ws)))
    ensures net.broken == old(net.broken) && net.closed == old(net.closed)
  {
    if f.Malformed? {
      return Some(BadFrame);
    }
    if f.messageType.None? {
      return Some(MissingType);
    }
    if f.messageType.value == "ping" {
      var ok := net.Send(ws, Pong);
      raised := if ok then None else Some(SendFailed);
    } else if f.messageType.value == "request_full_sync" {
      raised := cm.SendFullSync(ws, db, net);
    } else {
      raised := None;
    }
  }

  /**
   * The try block of websocket_endpoint: frames are read and answered until
   * one raises or the client leaves. `raised` is the exception that ended
   * the loop, None when the client left.
   */
  method ReceiveLoop(cm: ConnectionManager, ws: ConnId, frames: seq<Frame>, db: Table?, net: Network)
    returns (raised: Option<PyError>)
    modifies net
    ensures raised == Session(frames, Sync(db), old(net.Deliverable(ws))).raised
    ensures net.outbox == SendAllTo(old(net.outbox), ws, Session(frames, Sync(db), old(net.Deliverable(ws))).sent,
      old(net.Deliverable(ws)))
    ensures net.broken == old(net.broken) && net.closed == old(net.closed)
  {
    ghost var d := net.Deliverable(ws);
    ghost var sync := Sync(db);
    var i := 0;
    while i < |frames|
      invariant 0 <= i <= |frames|
      invariant net.broken == old(net.broken) && net.closed == old(net.closed) && d == net.Deliverable(ws)
      invariant Session(frames[..i], sync, d).raised.None?
      invariant net.outbox == SendAllTo(old(net.outbox), ws, Session(frames[..i], sync, d).sent, d)
    {
      ghost var sent := Session(frames[..i], sync, d).sent;
      assert frames[..i + 1][..i] == frames[..i];
      raised := Answer(cm, ws, frames[i], db, net);
      if raised.Some? {
        SessionStops(frames, i + 1, sync, d);
        return;
      }
      SendAllToTwice(old(net.outbox), ws, sent, Asked(frames[i], sync), d);
      i := i + 1;
    }
    assert frames[..i] == frames;
    raised := None;
  }

  /**
   * websocket_endpoint as written: the socket is listed, its frames are
   * answered, and when the loop ends (the client leaving included) the
   * except clause raises NameError instead of catching anything; the socket
   * is closed but stays listed. Its full-sync requests raise NameError too.
   */
  method WebsocketEndpointAsWritten(cm: ConnectionManager, ws: ConnId, frames: seq<Frame>, net: Network)
    returns (raised: PyError)
    modifies cm, net
    ensures cm.active == old(cm.active) + [ws]
    ensures raised == NameError
    ensures net.outbox == SendAllTo(old(net.outbox), ws,
      Session(frames, Failure(NameError), old(net.Deliverable(ws))).sent, old(net.Deliverable(ws)))
    ensures net.broken == old(net.broken) && net.closed == CloseAll(old(net.closed), {ws}, Dropped)
  {
    cm.Connect(ws);
    var _ := ReceiveLoop(cm, ws, frames, null, net);
    net.Close(ws, Dropped);
    CloseOne(old(net.closed), ws, Dropped);
    raised := NameError;
  }

  /**
   * websocket_endpoint as intended (WebSocketDisconnect imported, a session
   * on the docks table): when the client leaves, the socket is removed from
   * the list; any other exception ends the handler with the socket closed
   * and still listed, as the except clause catches only the disconnect.
   */
  method WebsocketEndpoint(cm: ConnectionManager, ws: ConnId, frames: seq<Frame>, db: Table, net: Network)
    returns (raised: Option<PyError>)
    modifies cm, net
    ensures raised == Session(frames, Sync(db), old(net.Deliverable(ws))).raised
    ensures raised.None? ==> cm.active == RemoveFirst(old(cm.active) + [ws], ws)
    ensures raised.Some? ==> cm.active == old(cm.active) + [ws]
    ensures net.outbox == SendAllTo(old(net.outbox), ws,
      Session(frames, Sync(db), old(net.Deliverable(ws))).sent, old(net.Deliverable(ws)))
    ensures net.broken == old(net.broken) && net.closed == CloseAll(old(net.closed), {ws}, Dropped)
  {
    cm.Connect(ws);
    raised := ReceiveLoop(cm, ws, frames, db, net);
    if raised.None? {
      var _ := cm.Disconnect(ws);
    }
    net.Close(ws, Dropped);
    CloseOne(old(net.closed), ws, Dropped);
  }

  /**
   * The answer of update_dock before its broadcast: 500 when the table
   * cannot be read, 404 for an unknown id, otherwise the row with the
   * request's status (any text), as id, location, number and status.
   */
  function UpdateOutcome(reachable: bool, rows: seq<Dock>, id: int, status: string): HttpReply
  {
    if !reachable then Error(500, "Internal Server Error")
    else if Find(rows, id).None? then Error(404, "Dock not found")
    else Ok(AsSent(Find(rows, id).value.(status := status)))
  }

  /**
   * update_dock succeeds exactly for a known id on a readable table, whatever
   * the status text: it is stored and answered verbatim, and whether the
   * update succeeds does not depend on it.
   */
  lemma UpdateOutcomeMeaning(reachable: bool, rows: seq<Dock>, id: int, status: string, other: string)
    ensures UpdateOutcome(reachable, rows, id, status).Ok? <==> reachable && Find(rows, id).Some?
    ensures UpdateOutcome(reachable, rows, id, status).Ok? ==>
      var d := UpdateOutcome(reachable, rows, id, status).dock;
      d.status == status && d.id == id && d.name.None? &&
      d.location == Find(rows, id).value.location && d.number == Find(rows, id).value.number
    ensures UpdateOutcome(reachable, rows, id, status).Error? ==>
      UpdateOutcome(reachable, rows, id, status) == UpdateOutcome(reachable, rows, id, other)
    ensures UpdateOutcome(reachable, rows, id, status) == Error(404, "Dock not found") <==>
      reachable && Find(rows, id).None?
  {
  }

  /**
   * update_dock (PUT /api/docks/{id}): look the dock up (404 when absent),
   * store the new status and commit, then broadcast dock_updated with the
   * committed id, location, number and status. A broadcast that raises turns
   * the answer into a 500 after the commit.
   */
  method UpdateDock(cm: ConnectionManager, db: Table, id: int, status: string, net: Network) returns (r: HttpReply)
    requires db.Valid()
    modifies db, net
    ensures db.Valid() && db.reachable == old(db.reachable) && db.nextId == old(db.nextId)
    ensures db.constrained == old(db.constrained)
    ensures db.rows == if old(db.reachable) then WithStatus(old(db.rows), id, status) else old(db.rows)
    ensures var outcome := UpdateOutcome(old(db.reachable), old(db.rows), id, status);
      var reached := FirstFailure(cm.active, old(net.broken), old(net.closed));
      && r == (if outcome.Ok? && reached < |cm.active| then Error(500, "Internal Server Error") else outcome)
      && net.outbox == (if outcome.Ok? then DeliverEach(old(net.outbox), cm.active[..reached], DockUpdated(outcome.dock, None))
                        else old(net.outbox))
    ensures net.broken == old(net.broken) && net.closed == old(net.closed)
  {
    var found := db.SelectById(id);
    if found.Failure? {
      return Error(500, "Internal Server Error");
    }
    if found.value.None? {
      WithStatusAbsent(db.rows, id, status);
      return Error(404, "Dock not found");
    }
    var updated := db.UpdateReturning(id, status);
    var dock := AsSent(updated.value.value);
    var ok := cm.Broadcast(DockUpdated(dock, None), net);
    r := if ok then Ok(dock) else Error(500, "Internal Server Error");
  }

  /**
   * Three clients connect in turn and the second one leaves at once; the
   * others stay connected. Its endpoint runs as written or as intended.
   */
  method ThreeClients(intended: bool, db: Table) returns (cm: ConnectionManager, net: Network)
    ensures fresh(cm) && fresh(net)
    ensures cm.active == if intended then [0, 2] else [0, 1, 2]
    ensures net.closed == map[1 := Dropped] && net.outbox == map[] && net.broken == {}
  {
    net := new Network({});
    cm := new ConnectionManager();
    cm.Connect(0);
    if intended {
      var _ := WebsocketEndpoint(cm, 1, [], db, net);
      assert RemoveFirst([0, 1], 1) == [0];
    } else {
      var _ := WebsocketEndpointAsWritten(cm, 1, [], net);
    }
    cm.Connect(2);
  }

  /**
   * A client that left while main.py as written runs: the client listed
   * before it keeps getting updates, the one listed after it gets none, and
   * every update answers 500 although it is committed.
   */
  method LeftClientAsWritten(d: Dock) returns (r: HttpReply, first: seq<ServerMessage>, later: seq<ServerMessage>)
    ensures r == Error(500, "Internal Server Error")
    ensures first == [DockUpdated(AsSent(d.(id := 1, status := "occupied")), None)] && later == []
  {
    var db := OneDock(d);
    var cm, net := ThreeClients(false, db);
    assert FirstFailure(cm.active, net.broken, net.closed) == 1;
    assert cm.active[..1] == [0];
    ghost var m := DockUpdated(AsSent(d.(id := 1, status := "occupied")), None);
    r := UpdateDock(cm, db, 1, "occupied", net);
    assert net.outbox == DeliverEach(map[], [0], m);
    DeliverEachAt(map[], [0], m, 0);
    DeliverEachAt(map[], [0], m, 2);
    first, later := SentTo(net.outbox, 0), SentTo(net.outbox, 2);
  }

  /** The same run with the disconnect caught: the client that left is removed and both others get the update. */
  method LeftClientIntended(d: Dock) returns (r: HttpReply, first: seq<ServerMessage>, later: seq<ServerMessage>)
    ensures r == Ok(AsSent(d.(id := 1, status := "occupied")))
    ensures first == later == [DockUpdated(AsSent(d.(id := 1, status := "occupied")), None)]
  {
    var db := OneDock(d);
    var cm, net := ThreeClients(true, db);
    assert FirstFailure(cm.active, net.broken, net.closed) == 2;
    assert cm.active[..2] == [0, 2];
    ghost var m := DockUpdated(AsSent(d.(id := 1, status := "occupied")), None);
    r := UpdateDock(cm, db, 1, "occupied", net);
    assert net.outbox == DeliverEach(map[], [0, 2], m);
    assert multiset([0, 2])[0] == 1 && multiset([0, 2])[2] == 1;
    DeliverEachAt(map[], [0, 2], m, 0);
    DeliverEachAt(map[], [0, 2], m, 2);
    first, later := SentTo(net.outbox, 0), SentTo(net.outbox, 2);
  }
}
