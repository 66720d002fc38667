/**
 * src/components/dock-tracker-redesigned.tsx: a stand-alone page holding 13
 * docks in local state, three statuses, a status picker per dock and a count
 * per status. Nothing here talks to a backend.
 */
module Redesigned {
  /** DockStatus of the redesigned page: three statuses, no de-icing. */
  datatype TileStatus = TileAvailable | TileOccupied | TileOutOfService

  /** A dock of the redesigned page: an id and a status. */
  datatype Tile = Tile(id: int, status: TileStatus)

  /** The page's initial state: docks 1..13, all available. */
  function Initial(): (r: seq<Tile>)
    ensures |r| == 13
    ensures forall k :: 0 <= k < |r| ==> r[k] == Tile(k + 1, TileAvailable)
  {
    seq(13, k => Tile(k + 1, TileAvailable))
  }

  /** updateDockStatus: every dock with the id takes the status, the others stay as they were. */
  function SetTileStatus(tiles: seq<Tile>, id: int, status: TileStatus): (r: seq<Tile>)
    ensures |r| == |tiles|
  {
    seq(|tiles|, k requires 0 <= k < |tiles| => if tiles[k].id == id then tiles[k].(status := status) else tiles[k])
  }

  /** The tiles' statuses, in order. */
  function Statuses(tiles: seq<Tile>): (r: seq<TileStatus>)
    ensures |r| == |tiles| && forall k :: 0 <= k < |tiles| ==> r[k] == tiles[k].status
  {
    seq(|tiles|, k requires 0 <= k < |tiles| => tiles[k].status)
  }

  /** The accumulator of statusCounts: one count per status. */
  datatype Counts = Counts(available: nat, occupied: nat, outOfService: nat)
  {
    function Get(s: TileStatus): nat
    {
      match s
      case TileAvailable => available
      case TileOccupied => occupied
      case TileOutOfService => outOfService
    }
  }

  /** acc[dock.status]++. */
  function Bump(acc: Counts, s: TileStatus): Counts
  {
    match s
    case TileAvailable => acc.(available := acc.available + 1)
    case TileOccupied => acc.(occupied := acc.occupied + 1)
    case TileOutOfService => acc.(outOfService := acc.outOfService + 1)
  }

  /** statusCounts: the reduce from all-zero counts, left to right. */
  function StatusCounts(tiles: seq<Tile>): Counts
    decreases |tiles|
  {
    if tiles == [] then Counts(0, 0, 0)
    else Bump(StatusCounts(tiles[..|tiles| - 1]), tiles[|tiles| - 1].status)
  }

  /** Every count is the number of docks in that status, and the three add up to the number of docks. */
  lemma {:induction false} StatusCountsMeaning(tiles: seq<Tile>)
    ensures forall s :: StatusCounts(tiles).Get(s) == multiset(Statuses(tiles))[s]
    ensures StatusCounts(tiles).available + StatusCounts(tiles).occupied + StatusCounts(tiles).outOfService == |tiles|
    decreases |tiles|
  {
    if tiles != [] {
      var init, last := tiles[..|tiles| - 1], tiles[|tiles| - 1];
      StatusCountsMeaning(init);
      assert Statuses(tiles) == Statuses(init) + [last.status];
    }
  }

  /** The initial page: 13 docks with ids 1..13, no two alike, counted 13 available and none otherwise. */
  lemma InitialState()
    ensures forall i, j :: 0 <= i < j < |Initial()| ==> Initial()[i].id != Initial()[j].id
    ensures StatusCounts(Initial()) == Counts(13, 0, 0)
  {
    var tiles := Initial();
    StatusCountsMeaning(tiles);
    assert Statuses(tiles) == seq(13, k => TileAvailable);
    assert multiset(Statuses(tiles))[TileOccupied] == 0 by {
      assert TileOccupied !in Statuses(tiles);
    }
    assert multiset(Statuses(tiles))[TileOutOfService] == 0 by {
      assert TileOutOfService !in Statuses(tiles);
    }
  }

  /**
   * updateDockStatus changes the docks with the id, and only their status;
   * an id no dock has leaves the list as it was; choosing the same status
   * again changes nothing more.
   */
  lemma SetTileStatusMeaning(tiles: seq<Tile>, id: int, status: TileStatus)
    ensures forall k :: 0 <= k < |tiles| && tiles[k].id != id ==> SetTileStatus(tiles, id, status)[k] == tiles[k]
    ensures forall k :: 0 <= k < |tiles| && tiles[k].id == id ==>
      SetTileStatus(tiles, id, status)[k] == Tile(id, status)
    ensures (forall k :: 0 <= k < |tiles| ==> tiles[k].id != id) ==> SetTileStatus(tiles, id, status) == tiles
    ensures SetTileStatus(SetTileStatus(tiles, id, status), id, status) == SetTileStatus(tiles, id, status)
  {
  }

  /**
   * On docks with distinct ids, moving the dock at index k to a new status
   * moves one from its old status's count to the new one's.
   */
  lemma {:induction false} SetTileStatusCounts(tiles: seq<Tile>, k: int, status: TileStatus)
    requires forall i, j :: 0 <= i < j < |tiles| ==> tiles[i].id != tiles[j].id
    requires 0 <= k < |tiles|
    ensures multiset(Statuses(SetTileStatus(tiles, tiles[k].id, status))) ==
      multiset(Statuses(tiles)) - multiset{tiles[k].status} + multiset{status}
    ensures forall s :: (StatusCounts(SetTileStatus(tiles, tiles[k].id, status)).Get(s) ==
      StatusCounts(tiles).Get(s) - (if s == tiles[k].status then 1 else 0) + (if s == status then 1 else 0))
  {
    var after := SetTileStatus(tiles, tiles[k].id, status);
    assert Statuses(after) == Statuses(tiles)[k := status];
    StatusCountsMeaning(tiles);
    StatusCountsMeaning(after);
  }
}
