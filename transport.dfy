/**
 * The sockets, seen from the server: what each connection has been sent, in
 * order, and which connections are closed. Whether a send fails is decided by
 * the environment: a send to a `broken` or closed connection fails and
 * delivers nothing.
 */
module Transport {
  import opened Models
  import opened Sets

  /** The identity of one client connection (a socket object in the source). */
  type ConnId = nat

  /** How a connection was closed: with a close frame and code, or by dropping the socket. */
  datatype Closure = CloseFrame(code: int, reason: string) | Dropped

  type Outbox = map<ConnId, seq<ServerMessage>>

  /** Everything connection `c` has been sent so far. */
  function SentTo(outbox: Outbox, c: ConnId): seq<ServerMessage>
  {
    if c in outbox then outbox[c] else []
  }

  /** The outbox after `m` has been delivered to `c`. */
  function Deliver(outbox: Outbox, c: ConnId, m: ServerMessage): Outbox
  {
    outbox[c := SentTo(outbox, c) + [m]]
  }

  /** The outbox after `m` has been delivered once to each connection in `targets`. */
  function AppendTo(outbox: Outbox, targets: set<ConnId>, m: ServerMessage): Outbox
  {
    map c | c in outbox.Keys + targets :: if c in targets then SentTo(outbox, c) + [m] else outbox[c]
  }

  /** Each target has received `m` once more; every other connection has received nothing new. */
  lemma AppendToAt(outbox: Outbox, targets: set<ConnId>, m: ServerMessage, c: ConnId)
    ensures SentTo(AppendTo(outbox, targets, m), c) ==
      if c in targets then SentTo(outbox, c) + [m] else SentTo(outbox, c)
  {
  }

  /** Delivering to one more connection extends AppendTo by that connection. */
  lemma AppendToOneMore(outbox: Outbox, targets: set<ConnId>, c: ConnId, m: ServerMessage)
    requires c !in targets
    ensures AppendTo(outbox, targets + {c}, m) == Deliver(AppendTo(outbox, targets, m), c, m)
  {
    var lhs := AppendTo(outbox, targets + {c}, m);
    var rhs := Deliver(AppendTo(outbox, targets, m), c, m);
    assert lhs.Keys == rhs.Keys;
    forall x | x in lhs ensures lhs[x] == rhs[x] {
      AppendToAt(outbox, targets + {c}, m, x);
      AppendToAt(outbox, targets, m, x);
      assert SentTo(lhs, x) == lhs[x];
      assert SentTo(rhs, x) == rhs[x];
    }
  }

  /** Delivering to nobody changes nothing. */
  lemma AppendToNobody(outbox: Outbox, m: ServerMessage)
    ensures AppendTo(outbox, {}, m) == outbox
  {
    var r := AppendTo(outbox, {}, m);
    assert r.Keys == outbox.Keys;
    forall x | x in r ensures r[x] == outbox[x] {
      AppendToAt(outbox, {}, m, x);
      assert SentTo(r, x) == SentTo(outbox, x);
    }
  }

  /** The closures after closing each of `conns` with `how`; a connection closed earlier keeps its first closure. */
  function CloseAll(closed: map<ConnId, Closure>, conns: set<ConnId>, how: Closure): map<ConnId, Closure>
  {
    map x | x in closed.Keys + conns :: if x in closed then closed[x] else how
  }

  /** The keys of a registry whose connection is broken or closed, so that a send to it fails. */
  function FailingKeys<K>(registry: map<K, ConnId>, broken: set<ConnId>, closed: map<ConnId, Closure>): set<K>
  {
    set k | k in registry && (registry[k] in broken || registry[k] in closed)
  }

  /** Closing one connection is CloseAll over that connection. */
  lemma CloseOne(closed: map<ConnId, Closure>, c: ConnId, how: Closure)
    ensures CloseAll(closed, {c}, how) == if c in closed then closed else closed[c := how]
  {
    var rhs := if c in closed then closed else closed[c := how];
    assert CloseAll(closed, {c}, how).Keys == rhs.Keys;
  }

  /** Closing no connection changes nothing. */
  lemma CloseNothing(closed: map<ConnId, Closure>, how: Closure)
    ensures CloseAll(closed, {}, how) == closed
  {
    assert CloseAll(closed, {}, how).Keys == closed.Keys;
  }

  /** No two keys of a registry share a connection. */
  predicate Injective<K>(registry: map<K, ConnId>)
  {
    forall a, b :: a in registry && b in registry && a != b ==> registry[a] != registry[b]
  }

  /** The connections registered under `keys`. */
  function ConnsOf<K>(registry: map<K, ConnId>, keys: set<K>): set<ConnId>
  {
    set k | k in keys && k in registry :: registry[k]
  }

  /** One more key adds its connection, which is new when the registry is injective. */
  lemma ConnsOfOneMore<K>(registry: map<K, ConnId>, keys: set<K>, k: K)
    requires Injective(registry) && k in registry && k !in keys
    ensures ConnsOf(registry, keys + {k}) == ConnsOf(registry, keys) + {registry[k]}
    ensures registry[k] !in ConnsOf(registry, keys)
  {
  }

  /**
   * The fate of one open connection in a broadcast over a registry: it
   * receives the message exactly when it is not broken, and otherwise it is
   * closed and its key dropped.
   */
  lemma BroadcastFate<K>(registry: map<K, ConnId>, k: K, broken: set<ConnId>, closed: map<ConnId, Closure>,
                         outbox: Outbox, m: ServerMessage)
    requires Injective(registry) && k in registry && registry[k] !in closed
    ensures var failing := FailingKeys(registry, broken, closed);
      && (k in (registry - failing).Keys <==> registry[k] !in broken)
      && SentTo(AppendTo(outbox, ConnsOf(registry, (registry - failing).Keys), m), registry[k]) ==
           SentTo(outbox, registry[k]) + (if registry[k] in broken then [] else [m])
      && (registry[k] in CloseAll(closed, ConnsOf(registry, failing), Dropped) <==> registry[k] in broken)
  {
    var failing := FailingKeys(registry, broken, closed);
    var c := registry[k];
    var targets := ConnsOf(registry, (registry - failing).Keys);
    assert c in targets <==> c !in broken by {
      if c in targets {
        var j :| j in (registry - failing).Keys && j in registry && registry[j] == c;
      }
    }
    assert c in ConnsOf(registry, failing) <==> c in broken by {
      if c in ConnsOf(registry, failing) {
        var j :| j in failing && j in registry && registry[j] == c;
      }
    }
    AppendToAt(outbox, targets, m, c);
  }

  /**
   * A second broadcast right after a first one fails on no key: the keys
   * the first one kept hold connections that are neither broken nor closed,
   * and the first one closed only the connections of other keys.
   */
  lemma {:induction false} SurvivorsDeliverable<K>(registry: map<K, ConnId>, broken: set<ConnId>, closed: map<ConnId, Closure>)
    requires Injective(registry)
    ensures var failing := FailingKeys(registry, broken, closed);
      var survivors := registry - failing;
      && FailingKeys(survivors, broken, CloseAll(closed, ConnsOf(registry, failing), Dropped)) == {}
      && ConnsOf(survivors, survivors.Keys) == ConnsOf(registry, survivors.Keys)
      && survivors - {} == survivors
  {
    var failing := FailingKeys(registry, broken, closed);
    var survivors := registry - failing;
    var closedAfter := CloseAll(closed, ConnsOf(registry, failing), Dropped);
    assert FailingKeys(survivors, broken, closedAfter) == {};
    assert (survivors - {}).Keys == survivors.Keys;
  }

  /**
   * Two broadcasts in a row after `c` is registered under `k`, and then `k`
   * removed with `c` closed: the second broadcast reaches exactly the
   * connections the first one reached, and closes nothing more.
   */
  lemma SecondBroadcast<K>(registry: map<K, ConnId>, k: K, c: ConnId, broken: set<ConnId>, closed: map<ConnId, Closure>,
                           outbox: Outbox, m: ServerMessage)
    requires Injective(registry) && c !in registry.Values
    ensures var registered := registry[k := c];
      var failing := FailingKeys(registered, broken, closed);
      var survivors := registered - failing;
      var closedAfter := CloseAll(closed, ConnsOf(registered, failing), Dropped);
      var failingAgain := FailingKeys(survivors, broken, closedAfter);
      && (survivors - failingAgain) - {k} == survivors - {k}
      && AppendTo(outbox, ConnsOf(survivors, (survivors - failingAgain).Keys), m) ==
           AppendTo(outbox, ConnsOf(registered, survivors.Keys), m)
      && CloseAll(CloseAll(closedAfter, ConnsOf(survivors, failingAgain), Dropped), {c}, Dropped) ==
           CloseAll(closedAfter, {c}, Dropped)
  {
    var registered := registry[k := c];
    RegisterFresh(registry, k, c);
    var failing := FailingKeys(registered, broken, closed);
    var survivors := registered - failing;
    var closedAfter := CloseAll(closed, ConnsOf(registered, failing), Dropped);
    SurvivorsDeliverable(registered, broken, closed);
    assert ConnsOf(survivors, {}) == {};
    CloseNothing(closedAfter, Dropped);
  }

  /** A connection registered under no key receives nothing from a broadcast and keeps its closure state. */
  lemma BroadcastSkips<K>(registry: map<K, ConnId>, c: ConnId, broken: set<ConnId>, closed: map<ConnId, Closure>,
                          outbox: Outbox, m: ServerMessage)
    requires c !in registry.Values
    ensures var failing := FailingKeys(registry, broken, closed);
      && SentTo(AppendTo(outbox, ConnsOf(registry, (registry - failing).Keys), m), c) == SentTo(outbox, c)
      && (c in CloseAll(closed, ConnsOf(registry, failing), Dropped) <==> c in closed)
  {
    var failing := FailingKeys(registry, broken, closed);
    var targets := ConnsOf(registry, (registry - failing).Keys);
    assert c !in targets;
    assert c !in ConnsOf(registry, failing);
    AppendToAt(outbox, targets, m, c);
  }

  /** Closing one more connection after CloseAll is CloseAll over one more connection. */
  lemma CloseAllOneMore(closed: map<ConnId, Closure>, conns: set<ConnId>, c: ConnId, how: Closure)
    ensures CloseAll(closed, conns + {c}, how) ==
      if c in CloseAll(closed, conns, how) then CloseAll(closed, conns, how) else CloseAll(closed, conns, how)[c := how]
  {
    var lhs, prev := CloseAll(closed, conns + {c}, how), CloseAll(closed, conns, how);
    var rhs := if c in prev then prev else prev[c := how];
    assert lhs.Keys == rhs.Keys;
  }

  /** Set bookkeeping for one step of a loop over `all`: `k` moves from pending to done. */
  lemma VisitOne<K>(all: set<K>, pending: set<K>, failing: set<K>, k: K)
    requires pending <= all && k in pending
    ensures all - (pending - {k}) == (all - pending) + {k}
    ensures k !in failing ==>
      && ((all - pending) + {k}) - failing == ((all - pending) - failing) + {k}
      && failing * (all - (pending - {k})) == failing * (all - pending)
      && all - failing * (all - (pending - {k})) == all - failing * (all - pending)
    ensures k in failing ==>
      && ((all - pending) + {k}) - failing == (all - pending) - failing
      && failing * (all - (pending - {k})) == failing * (all - pending) + {k}
      && all - failing * (all - (pending - {k})) == (all - failing * (all - pending)) - {k}
  {
  }

  /**
   * One step of the Go broadcast loop over `registry`, in terms of the
   * state before it: key `k` leaves `pending`; its connection gets `m` when
   * `k` is not failing and is closed otherwise.
   */
  lemma SendEachStep<K>(registry: map<K, ConnId>, pending: set<K>, failing: set<K>, failed: set<K>,
                        out0: Outbox, closed0: map<ConnId, Closure>, k: K, m: ServerMessage)
    requires Injective(registry) && pending <= registry.Keys && k in pending
    requires failed == failing * (registry.Keys - pending)
    ensures registry[k] !in ConnsOf(registry, failed)
    ensures k !in failing ==>
      && failed == failing * (registry.Keys - (pending - {k}))
      && AppendTo(out0, ConnsOf(registry, (registry.Keys - (pending - {k})) - failing), m)
         == Deliver(AppendTo(out0, ConnsOf(registry, (registry.Keys - pending) - failing), m), registry[k], m)
    ensures k in failing ==>
      && failed + {k} == failing * (registry.Keys - (pending - {k}))
      && AppendTo(out0, ConnsOf(registry, (registry.Keys - (pending - {k})) - failing), m)
         == AppendTo(out0, ConnsOf(registry, (registry.Keys - pending) - failing), m)
      && CloseAll(closed0, ConnsOf(registry, failed + {k}), Dropped)
         == (var prev := CloseAll(closed0, ConnsOf(registry, failed), Dropped);
             if registry[k] in prev then prev else prev[registry[k] := Dropped])
  {
    var all, c := registry.Keys, registry[k];
    VisitOne(all, pending, failing, k);
    ConnsOfOneMore(registry, failed, k);
    if k !in failing {
      ConnsOfOneMore(registry, (all - pending) - failing, k);
      AppendToOneMore(out0, ConnsOf(registry, (all - pending) - failing), c, m);
    } else {
      CloseAllOneMore(closed0, ConnsOf(registry, failed), c, Dropped);
    }
  }

  /** The outbox after `msgs` went, in order, to `c` (nothing arrives when `c` does not accept sends). */
  function SendAllTo(outbox: Outbox, c: ConnId, msgs: seq<ServerMessage>, deliverable: bool): Outbox
  {
    if deliverable && msgs != [] then outbox[c := SentTo(outbox, c) + msgs] else outbox
  }

  /** Two batches to the same socket are one batch. */
  lemma SendAllToTwice(outbox: Outbox, c: ConnId, a: seq<ServerMessage>, b: seq<ServerMessage>, deliverable: bool)
    ensures SendAllTo(SendAllTo(outbox, c, a, deliverable), c, b, deliverable) == SendAllTo(outbox, c, a + b, deliverable)
  {
    if deliverable && a != [] && b != [] {
      assert SentTo(outbox, c) + a + b == SentTo(outbox, c) + (a + b);
    } else if deliverable && b == [] {
      assert a + b == a;
    } else if deliverable {
      assert a + b == b;
    }
  }

  /** Other sockets receive nothing from a batch to `c`. */
  lemma SendAllToOthers(outbox: Outbox, c: ConnId, msgs: seq<ServerMessage>, deliverable: bool, other: ConnId)
    requires other != c
    ensures SentTo(SendAllTo(outbox, c, msgs, deliverable), other) == SentTo(outbox, other)
    ensures SentTo(SendAllTo(outbox, c, msgs, deliverable), c) ==
      if deliverable then SentTo(outbox, c) + msgs else SentTo(outbox, c)
  {
  }

  /** The position of the first connection of `conns` a send fails on, or |conns| when none does. */
  function FirstFailure(conns: seq<ConnId>, broken: set<ConnId>, closed: map<ConnId, Closure>): (k: nat)
    ensures k <= |conns|
    ensures forall i :: 0 <= i < k ==> conns[i] !in broken && conns[i] !in closed
    ensures k < |conns| ==> conns[k] in broken || conns[k] in closed
  {
    if conns == [] then 0
    else if conns[0] in broken || conns[0] in closed then 0
    else 1 + FirstFailure(conns[1..], broken, closed)
  }

  /** The outbox after `m` went to each of `conns` in turn (twice to a connection listed twice). */
  function DeliverEach(outbox: Outbox, conns: seq<ConnId>, m: ServerMessage): Outbox
  {
    if conns == [] then outbox
    else Deliver(DeliverEach(outbox, conns[..|conns| - 1], m), conns[|conns| - 1], m)
  }

  /** `n` copies of `m`. */
  function Copies(m: ServerMessage, n: nat): (r: seq<ServerMessage>)
    ensures |r| == n && forall i :: 0 <= i < n ==> r[i] == m
  {
    seq(n, _ => m)
  }

  /** Each connection receives `m` once for every time it is listed, and nothing else. */
  lemma {:induction false} DeliverEachAt(outbox: Outbox, conns: seq<ConnId>, m: ServerMessage, c: ConnId)
    ensures SentTo(DeliverEach(outbox, conns, m), c) == SentTo(outbox, c) + Copies(m, multiset(conns)[c])
  {
    if conns != [] {
      var init, last := conns[..|conns| - 1], conns[|conns| - 1];
      DeliverEachAt(outbox, init, m, c);
      CountSnoc(init, last, c);
      assert conns == init + [last];
      DeliverAt(DeliverEach(outbox, init, m), last, m, c);
      if last == c {
        var before: multiset<ConnId> := multiset(init);
        CopiesSnoc(m, before[c]);
      }
    }
  }

  /** Listing one more connection adds one to its count and leaves the others' alone. */
  lemma CountSnoc(init: seq<ConnId>, last: ConnId, c: ConnId)
    ensures multiset(init + [last])[c] == multiset(init)[c] + (if last == c then 1 else 0)
  {
    var before: multiset<ConnId> := multiset(init);
    assert multiset(init + [last]) == before + multiset{last};
  }

  /** One more copy at the end. */
  lemma CopiesSnoc(m: ServerMessage, n: nat)
    ensures Copies(m, n) + [m] == Copies(m, n + 1)
  {
  }

  /** Delivering to one connection appends to its messages and leaves every other connection's alone. */
  lemma DeliverAt(outbox: Outbox, target: ConnId, m: ServerMessage, c: ConnId)
    ensures SentTo(Deliver(outbox, target, m), c) == SentTo(outbox, c) + (if c == target then [m] else [])
  {
  }

  /** Registering a key and then removing it leaves the map without that key. */
  lemma UpdateThenRemove<K, V>(m: map<K, V>, k: K, v: V)
    ensures m[k := v] - {k} == m - {k}
  {
    assert (m[k := v] - {k}).Keys == (m - {k}).Keys;
  }

  /** Registering a connection no key holds keeps the registry injective and grows it by one at most. */
  lemma RegisterFresh<K>(registry: map<K, ConnId>, k: K, c: ConnId)
    requires Injective(registry) && c !in registry.Values
    ensures Injective(registry[k := c]) && |registry[k := c]| <= |registry| + 1
  {
    forall a | a in registry && a != k ensures registry[a] != c {
      assert registry[a] in registry.Values;
    }
  }

  /** Removing an absent key changes nothing. */
  lemma RemoveAbsent<K, V>(m: map<K, V>, k: K)
    requires k !in m
    ensures m - {k} == m
  {
    assert (m - {k}).Keys == m.Keys;
  }

  /** Removing keys from a map never makes it larger. */
  lemma RemoveKeysCardinality<K, V>(m: map<K, V>, s: set<K>)
    ensures |m - s| <= |m|
  {
    assert (m - s).Keys <= m.Keys;
    SubsetCardinality((m - s).Keys, m.Keys);
  }

  class Network {
    var outbox: Outbox
    /** Connections whose next send throws or returns an error. */
    var broken: set<ConnId>
    var closed: map<ConnId, Closure>

    constructor (broken: set<ConnId>)
      ensures outbox == map[] && this.broken == broken && closed == map[]
    {
      outbox := map[];
      this.broken := broken;
      closed := map[];
    }

    predicate Deliverable(c: ConnId)
      reads this
    {
      c !in broken && c !in closed
    }

    /** The set of connections among `cs` a send would fail on. */
    function Failing(cs: set<ConnId>): set<ConnId>
      reads this
    {
      set c | c in cs && (c in broken || c in closed)
    }

    /**
     * The broadcast loop of the Go servers: write `m` to every registered
     * connection; a connection whose write fails is closed. Answers the keys
     * whose write failed, for the caller to delete.
     */
    method SendEachClosingFailed<K>(registry: map<K, ConnId>, m: ServerMessage) returns (failed: set<K>)
      requires Injective(registry)
      modifies this
      ensures failed == FailingKeys(registry, old(broken), old(closed))
      ensures outbox == AppendTo(old(outbox), ConnsOf(registry, registry.Keys - failed), m)
      ensures closed == CloseAll(old(closed), ConnsOf(registry, failed), Dropped)
      ensures broken == old(broken)
    {
      var pending := registry.Keys;
      ghost var all := registry.Keys;
      ghost var failing := FailingKeys(registry, broken, closed);
      ghost var out0, closed0 := outbox, closed;
      failed := {};
      assert ConnsOf(registry, (all - pending) - failing) == {} == ConnsOf(registry, failed);
      AppendToNobody(out0, m);
      CloseNothing(closed0, Dropped);
      while pending != {}
        invariant pending <= all && broken == old(broken)
        invariant failed == failing * (all - pending)
        invariant outbox == AppendTo(out0, ConnsOf(registry, (all - pending) - failing), m)
        invariant closed == CloseAll(closed0, ConnsOf(registry, failed), Dropped)
        decreases pending
      {
        var k :| k in pending;
        failed := SendEachVisit(registry, pending, failing, failed, out0, closed0, k, m);
        pending := pending - {k};
      }
      assert failing <= all;
      assert (all - pending) - failing == registry.Keys - failed;
    }

    /**
     * A Python broadcast loop without per-connection handling: sends to
     * `conns` in order until one send raises, which ends the loop. `ok` says
     * whether every send went through.
     */
    method SendInOrder(conns: seq<ConnId>, m: ServerMessage) returns (ok: bool)
      modifies this
      ensures ok == (FirstFailure(conns, old(broken), old(closed)) == |conns|)
      ensures outbox == DeliverEach(old(outbox), conns[..FirstFailure(conns, old(broken), old(closed))], m)
      ensures broken == old(broken) && closed == old(closed)
    {
      var i := 0;
      while i < |conns|
        invariant 0 <= i <= FirstFailure(conns, broken, closed)
        invariant broken == old(broken) && closed == old(closed)
        invariant outbox == DeliverEach(old(outbox), conns[..i], m)
      {
        var sent := Send(conns[i], m);
        if !sent {
          return false;
        }
        assert conns[..i + 1][..i] == conns[..i];
        i := i + 1;
      }
      return true;
    }

    /** One iteration of the Go broadcast loop, stated against the loop's invariant. */
    method SendEachVisit<K>(registry: map<K, ConnId>, ghost pending: set<K>, ghost failing: set<K>, failed: set<K>,
                            ghost out0: Outbox, ghost closed0: map<ConnId, Closure>, k: K, m: ServerMessage)
      returns (failed': set<K>)
      requires Injective(registry) && pending <= registry.Keys && k in pending
      requires k in failing <==> registry[k] in broken || registry[k] in closed0
      requires failed == failing * (registry.Keys - pending)
      requires outbox == AppendTo(out0, ConnsOf(registry, (registry.Keys - pending) - failing), m)
      requires closed == CloseAll(closed0, ConnsOf(registry, failed), Dropped)
      modifies this
      ensures failed' == failing * (registry.Keys - (pending - {k}))
      ensures outbox == AppendTo(out0, ConnsOf(registry, (registry.Keys - (pending - {k})) - failing), m)
      ensures closed == CloseAll(closed0, ConnsOf(registry, failed'), Dropped)
      ensures broken == old(broken)
    {
      var c := registry[k];
      SendEachStep(registry, pending, failing, failed, out0, closed0, k, m);
      assert c in closed <==> c in closed0;
      var ok := SendOrClose(c, m);
      failed' := if ok then failed else failed + {k};
    }

    /** One iteration of the Go broadcast loop: write, and close the connection if the write fails. */
    method SendOrClose(c: ConnId, m: ServerMessage) returns (ok: bool)
      modifies this
      ensures ok == old(Deliverable(c))
      ensures outbox == if ok then Deliver(old(outbox), c, m) else old(outbox)
      ensures closed == if ok || c in old(closed) then old(closed) else old(closed)[c := Dropped]
      ensures broken == old(broken)
    {
      ok := Send(c, m);
      if !ok {
        Close(c, Dropped);
      }
    }

    /** ws.send / conn.WriteMessage: delivers `m`, or fails on a broken or closed connection. */
    method Send(c: ConnId, m: ServerMessage) returns (ok: bool)
      modifies this
      ensures ok == old(Deliverable(c))
      ensures outbox == if ok then Deliver(old(outbox), c, m) else old(outbox)
      ensures broken == old(broken) && closed == old(closed)
    {
      ok := Deliverable(c);
      if ok {
        outbox := Deliver(outbox, c, m);
      }
    }

    /** ws.close / conn.Close: the first close of a connection is the one recorded. */
    method Close(c: ConnId, how: Closure)
      modifies this
      ensures closed == if c in old(closed) then old(closed) else old(closed)[c := how]
      ensures outbox == old(outbox) && broken == old(broken)
    {
      if c !in closed {
        closed := closed[c := how];
      }
    }
  }
}
