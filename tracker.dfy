/**
 * The client-side state of the two dock-tracker pages
 * (frontend/src/app/dock-tracker.tsx over a websocket, src/app/dock-tracker.tsx
 * over server-sent events): the dock list and how messages, the optimistic
 * update and the status filter change it, and what the page derives from it.
 * Both pages share getDockName, the update reducer, the filters, the counts
 * and the filter toggle; they differ in which messages they handle and in
 * whether fetched docks are renamed.
 */
module Tracker {
  import opened Wrappers
  import opened Sequences
  import opened Models
  import opened Decimal
  import opened Docks
  import opened Store
  import opened Seeds

  /** getDockName: the southwest names by dock number, "Unknown SW Dock n" past them, "Dock n" in the southeast. */
  function DockName(d: Dock): string
  {
    if d.location == Southwest then
      if 1 <= d.number <= |SouthwestDockNames| then SouthwestDockNames[d.number - 1]
      else "Unknown SW Dock " + IntToString(d.number)
    else "Dock " + IntToString(d.number)
  }

  /** A dock on one of the seats of the 13 + 11 layout. */
  predicate OnLayout(d: Dock)
  {
    1 <= d.number <= (if d.location == Southeast then SoutheastCount else SouthwestCount)
  }

  /** On the layout, the derived name tells the seat: two docks with the same name sit on the same seat. */
  lemma DockNameNamesSeat(a: Dock, b: Dock)
    requires OnLayout(a) && OnLayout(b) && DockName(a) == DockName(b)
    ensures a.location == b.location && a.number == b.number
  {
    SouthwestNamesDistinct();
    if a.location == Southeast && b.location == Southeast {
      if a.number != b.number {
        IntToStringInjective(a.number, b.number);
        SamePrefixInjective("Dock ", IntToString(a.number), IntToString(b.number));
      }
    }
  }

  /** The derived name is the name backend_2 stores: every seeded row is shown under its own name. */
  lemma DockNameAgreesWithGoSeed(k: int)
    requires 0 <= k < |GoSeed()|
    ensures DockName(Materialize(GoSeed(), 1)[k]) == GoSeed()[k].name.value
  {
    var sw, se := SouthwestNamed(), SoutheastNamed();
    if k < 11 {
      assert GoSeed()[k] == sw[k];
    } else {
      assert GoSeed()[k] == se[k - 11];
    }
  }

  /** The dock as the page keeps it: the name replaced by the derived one. */
  function Named(d: Dock): (r: Dock)
    ensures r.(name := d.name) == d && r.name == Some(DockName(d))
  {
    d.(name := Some(DockName(d)))
  }

  /** Every dock with its derived name, as a full sync (and src's fetch) installs them. */
  function NameAll(rows: seq<Dock>): (r: seq<Dock>)
    ensures |r| == |rows|
    ensures forall k :: 0 <= k < |rows| ==> r[k] == Named(rows[k])
  {
    seq(|rows|, k requires 0 <= k < |rows| => Named(rows[k]))
  }

  /**
   * Renaming is stable, and on docks that sit on distinct seats of the
   * layout it gives distinct names.
   */
  lemma NameAllNames(rows: seq<Dock>)
    ensures NameAll(NameAll(rows)) == NameAll(rows)
    ensures UniqueSeats(rows) && (forall k :: 0 <= k < |rows| ==> OnLayout(rows[k])) ==> UniqueNames(NameAll(rows))
  {
    if UniqueSeats(rows) && (forall k :: 0 <= k < |rows| ==> OnLayout(rows[k])) {
      forall i, j | 0 <= i < j < |rows| ensures NameAll(rows)[i].name != NameAll(rows)[j].name {
        if DockName(rows[i]) == DockName(rows[j]) {
          DockNameNamesSeat(rows[i], rows[j]);
        }
      }
    }
  }

  /** The dock_updated reducer: every dock with the message's id becomes the message's dock, renamed. */
  function ApplyUpdate(docks: seq<Dock>, data: Dock): (r: seq<Dock>)
    ensures |r| == |docks|
  {
    seq(|docks|, k requires 0 <= k < |docks| => if docks[k].id == data.id then Named(data) else docks[k])
  }

  /**
   * An update touches only the docks with its id, changes nothing when no
   * dock has that id, and applying it again changes nothing more.
   */
  lemma ApplyUpdateMeaning(docks: seq<Dock>, data: Dock)
    ensures forall k :: 0 <= k < |docks| && docks[k].id != data.id ==> ApplyUpdate(docks, data)[k] == docks[k]
    ensures forall k :: 0 <= k < |docks| && docks[k].id == data.id ==>
      ApplyUpdate(docks, data)[k] == Named(data) && ApplyUpdate(docks, data)[k].name == Some(DockName(data))
    ensures Find(docks, data.id).None? ==> ApplyUpdate(docks, data) == docks
    ensures ApplyUpdate(ApplyUpdate(docks, data), data) == ApplyUpdate(docks, data)
  {
  }

  /** A message as the page's onmessage handler sees it after JSON.parse. */
  datatype Event = Updated(data: Dock) | Synced(docks: seq<Dock>) | OtherType

  /** The frontend page (websocket): dock_updated and full_sync change the list, any other type is ignored. */
  function OnMessage(docks: seq<Dock>, e: Event): (r: seq<Dock>)
    ensures e.OtherType? ==> r == docks
    ensures e.Synced? ==> r == NameAll(e.docks)
  {
    match e
    case Updated(data) => ApplyUpdate(docks, data)
    case Synced(rows) => NameAll(rows)
    case OtherType => docks
  }

  /** The src page (server-sent events): only dock_updated changes the list; a full_sync is ignored. */
  function OnSseMessage(docks: seq<Dock>, e: Event): (r: seq<Dock>)
    ensures !e.Updated? ==> r == docks
    ensures e.Updated? ==> r == OnMessage(docks, e)
  {
    if e.Updated? then ApplyUpdate(docks, e.data) else docks
  }

  /** The event a server message becomes on the page: pong and replayed text carry no dock type the page acts on. */
  function EventOf(m: ServerMessage): Event
  {
    match m
    case DockUpdated(data, _) => Updated(data)
    case FullSync(docks, _) => Synced(docks)
    case _ => OtherType
  }

  /**
   * Convergence: a page showing the table's rows that receives the row the
   * server answered for an update (any name, the others fields those of the
   * updated row) shows the updated table; so does the optimistic update,
   * and the echo after it changes nothing.
   */
  lemma UpdateConverges(rows: seq<Dock>, id: int, status: string, sent: Dock)
    requires UniqueIds(rows) && Find(rows, id).Some?
    requires sent.(name := None) == Find(rows, id).value.(status := status, name := None)
    ensures OnMessage(NameAll(rows), Updated(sent)) == NameAll(WithStatus(rows, id, status))
    ensures WithStatus(NameAll(rows), id, status) == NameAll(WithStatus(rows, id, status))
    ensures OnMessage(WithStatus(NameAll(rows), id, status), Updated(sent)) == WithStatus(NameAll(rows), id, status)
  {
    SentIsUpdatedRow(rows, id, status, sent);
    OptimisticAgrees(rows, id, status);
    var after := NameAll(WithStatus(rows, id, status));
    assert ApplyUpdate(NameAll(rows), sent) == after;
    assert ApplyUpdate(after, sent) == after;
  }

  /** With unique ids, the row the server answered is, once renamed, the renamed updated row. */
  lemma SentIsUpdatedRow(rows: seq<Dock>, id: int, status: string, sent: Dock)
    requires UniqueIds(rows) && Find(rows, id).Some?
    requires sent.(name := None) == Find(rows, id).value.(status := status, name := None)
    ensures forall k :: 0 <= k < |rows| && rows[k].id == id ==> Named(sent) == Named(rows[k].(status := status))
  {
    forall k | 0 <= k < |rows| && rows[k].id == id ensures Named(sent) == Named(rows[k].(status := status)) {
      FindUnique(rows, k);
    }
  }

  /** The optimistic update on the page's list agrees with renaming the updated table: the name does not depend on the status. */
  lemma OptimisticAgrees(rows: seq<Dock>, id: int, status: string)
    ensures WithStatus(NameAll(rows), id, status) == NameAll(WithStatus(rows, id, status))
  {
  }

  /** The full sync a server sends makes any page show exactly the server's rows. */
  lemma FullSyncConverges(view: seq<Dock>, rows: seq<Dock>, stamp: Option<int>)
    ensures OnMessage(view, EventOf(FullSync(rows, stamp))) == NameAll(rows)
    ensures OnSseMessage(view, EventOf(FullSync(rows, stamp))) == view
  {
  }

  /** The tab filter of the tracker page: the docks at the active location, in their order, each as often as it occurs. */
  function Located(docks: seq<Dock>, tab: Location): (r: seq<Dock>)
    ensures Subsequence(r, docks)
    ensures forall d :: d in r <==> d in docks && d.location == tab
    ensures forall d :: multiset(r)[d] == if d.location == tab then multiset(docks)[d] else 0
    decreases |docks|
  {
    if docks == [] then []
    else
      var init, last := docks[..|docks| - 1], docks[|docks| - 1];
      assert docks == init + [last];
      assert multiset(docks) == multiset(init) + multiset{last};
      assert forall d :: d in docks <==> d in init || d == last;
      if last.location == tab then
        SubsequenceSnoc(Located(init, tab), init, last);
        Located(init, tab) + [last]
      else
        SubsequenceExtend(Located(init, tab), init, last);
        Located(init, tab)
  }

  /** The status filter of the tracker page: the docks in the chosen status, in their order, each as often as it occurs. */
  function InStatus(docks: seq<Dock>, status: string): (r: seq<Dock>)
    ensures Subsequence(r, docks)
    ensures forall d :: d in r <==> d in docks && d.status == status
    ensures forall d :: multiset(r)[d] == if d.status == status then multiset(docks)[d] else 0
    decreases |docks|
  {
    if docks == [] then []
    else
      var init, last := docks[..|docks| - 1], docks[|docks| - 1];
      assert docks == init + [last];
      assert multiset(docks) == multiset(init) + multiset{last};
      assert forall d :: d in docks <==> d in init || d == last;
      if last.status == status then
        SubsequenceSnoc(InStatus(init, status), init, last);
        InStatus(init, status) + [last]
      else
        SubsequenceExtend(InStatus(init, status), init, last);
        InStatus(init, status)
  }

  /** filteredDocks: the docks of the active tab, narrowed to the status filter when one is set. */
  function Visible(docks: seq<Dock>, tab: Location, filter: Option<Status>): seq<Dock>
  {
    if filter.None? then Located(docks, tab) else InStatus(Located(docks, tab), StatusText(filter.value))
  }

  /**
   * The shown docks are the docks, in their order, that sit in the active
   * tab and have the filtered status: each of them and nothing else.
   */
  lemma VisibleMeaning(docks: seq<Dock>, tab: Location, filter: Option<Status>)
    ensures Subsequence(Visible(docks, tab, filter), docks)
    ensures forall d :: d in Visible(docks, tab, filter) <==>
      d in docks && d.location == tab && (filter.None? || d.status == StatusText(filter.value))
    ensures forall d :: (multiset(Visible(docks, tab, filter))[d] ==
      if d.location == tab && (filter.None? || d.status == StatusText(filter.value)) then multiset(docks)[d] else 0)
    ensures |Visible(docks, tab, filter)| <= |Located(docks, tab)|
  {
    if filter.Some? {
      SubsequenceTransitive(InStatus(Located(docks, tab), StatusText(filter.value)), Located(docks, tab), docks);
      SubsequenceMembers(InStatus(Located(docks, tab), StatusText(filter.value)), Located(docks, tab));
    }
  }

  /** A tally cell: a count, or NaN once `undefined` has been incremented. */
  datatype Tally = Count(n: nat) | NaN

  /** The reduce's seed: the four statuses at zero. */
  const ZeroCounts: map<string, Tally> :=
    map["available" := Count(0), "occupied" := Count(0), "out-of-service" := Count(0), "deiced" := Count(0)]

  /** acc[status]++: a known key counts one more; a key the accumulator lacks becomes NaN. */
  function Bump(acc: map<string, Tally>, status: string): map<string, Tally>
  {
    if status in acc && acc[status].Count? then acc[status := Count(acc[status].n + 1)]
    else acc[status := NaN]
  }

  /** The reduce over a list of docks, left to right. */
  function Tallied(docks: seq<Dock>): map<string, Tally>
    decreases |docks|
  {
    if docks == [] then ZeroCounts
    else Bump(Tallied(docks[..|docks| - 1]), docks[|docks| - 1].status)
  }

  /** statusCounts: the tally of the active tab's docks. */
  function StatusCounts(docks: seq<Dock>, tab: Location): map<string, Tally>
  {
    Tallied(Located(docks, tab))
  }

  /** How many of the docks have the status. */
  function Occurrences(docks: seq<Dock>, status: string): nat
    decreases |docks|
  {
    if docks == [] then 0
    else Occurrences(docks[..|docks| - 1], status) + (if docks[|docks| - 1].status == status then 1 else 0)
  }

  /**
   * The tally has the four statuses as keys, each counting the docks in that
   * status; any other status that occurs is a key holding NaN.
   */
  lemma {:induction false} TalliedMeaning(docks: seq<Dock>)
    ensures forall s :: s in Tallied(docks) <==> IsValidStatus(s) || exists k :: 0 <= k < |docks| && docks[k].status == s
    ensures forall s :: IsValidStatus(s) ==> Tallied(docks)[s] == Count(Occurrences(docks, s))
    ensures forall s :: s in Tallied(docks) && !IsValidStatus(s) ==> Tallied(docks)[s] == NaN
    decreases |docks|
  {
    if docks != [] {
      var init := docks[..|docks| - 1];
      TalliedMeaning(init);
      assert forall k :: 0 <= k < |init| ==> init[k] == docks[k];
      forall s ensures s in Tallied(docks) <==> IsValidStatus(s) || exists k :: 0 <= k < |docks| && docks[k].status == s {
        if exists k :: 0 <= k < |docks| && docks[k].status == s {
          var k :| 0 <= k < |docks| && docks[k].status == s;
          if k < |init| {
            assert init[k].status == s;
          }
        }
      }
    }
  }

  /** When every status is one of the four, the four counts add up to the number of docks. */
  lemma {:induction false} OccurrencesSum(docks: seq<Dock>)
    requires forall k :: 0 <= k < |docks| ==> IsValidStatus(docks[k].status)
    ensures Occurrences(docks, "available") + Occurrences(docks, "occupied") +
      Occurrences(docks, "out-of-service") + Occurrences(docks, "deiced") == |docks|
    decreases |docks|
  {
    if docks != [] {
      OccurrencesSum(docks[..|docks| - 1]);
    }
  }

  /**
   * statusCounts over a tab whose docks all carry one of the four statuses:
   * exactly the four keys, counting the tab's docks in each status, and
   * adding up to the tab's dock count.
   */
  lemma StatusCountsSum(docks: seq<Dock>, tab: Location)
    requires forall d :: d in docks && d.location == tab ==> IsValidStatus(d.status)
    ensures StatusCounts(docks, tab).Keys == ValidStatuses
    ensures forall s :: s in ValidStatuses ==> StatusCounts(docks, tab)[s] == Count(Occurrences(Located(docks, tab), s))
    ensures StatusCounts(docks, tab)["available"].n + StatusCounts(docks, tab)["occupied"].n +
      StatusCounts(docks, tab)["out-of-service"].n + StatusCounts(docks, tab)["deiced"].n == |Located(docks, tab)|
  {
    var tabbed := Located(docks, tab);
    assert forall k :: 0 <= k < |tabbed| ==> tabbed[k] in tabbed;
    TalliedMeaning(tabbed);
    OccurrencesSum(tabbed);
  }

  /** handleStatusClick: clicking the selected status clears the filter, any other selects it. */
  function Toggle(prev: Option<Status>, clicked: Status): Option<Status>
  {
    if prev == Some(clicked) then None else Some(clicked)
  }

  /**
   * The filter after a click is cleared exactly when the clicked status was
   * selected; a second click on the same status restores the filter exactly
   * when it was unset or that status.
   */
  lemma ToggleMeaning(prev: Option<Status>, clicked: Status)
    ensures Toggle(prev, clicked) == None <==> prev == Some(clicked)
    ensures Toggle(prev, clicked) != None ==> Toggle(prev, clicked) == Some(clicked)
    ensures Toggle(Toggle(prev, clicked), clicked) == prev <==> prev == None || prev == Some(clicked)
  {
  }
}
