/**
 * The fixed dock tables each backend writes into an empty store: 13 southeast
 * docks numbered 1..13 and 11 southwest docks numbered 1..11, all available.
 * The backends differ in order and in which docks get a name.
 */
module Seeds {
  import opened Wrappers
  import opened Models
  import opened Decimal
  import opened Docks
  import opened Store

  const SoutheastCount: nat := 13
  const SouthwestCount: nat := 11

  /** Southeast docks 1..13 without a name (name column left NULL or absent). */
  function SoutheastUnnamed(): (r: seq<NewDock>)
    ensures |r| == SoutheastCount
    ensures forall k :: 0 <= k < |r| ==> r[k] == NewDock(Southeast, k + 1, StatusText(Available), None)
  {
    seq(13, k => NewDock(Southeast, k + 1, StatusText(Available), None))
  }

  /** Southeast docks 1..13 named "Dock 1" .. "Dock 13". */
  function SoutheastNamed(): (r: seq<NewDock>)
    ensures |r| == SoutheastCount
    ensures forall k :: 0 <= k < |r| ==>
      r[k] == NewDock(Southeast, k + 1, StatusText(Available), Some("Dock " + IntToString(k + 1)))
  {
    seq(13, k => NewDock(Southeast, k + 1, StatusText(Available), Some("Dock " + IntToString(k + 1))))
  }

  /** Southwest docks 1..11 without a name. */
  function SouthwestUnnamed(): (r: seq<NewDock>)
    ensures |r| == SouthwestCount
    ensures forall k :: 0 <= k < |r| ==> r[k] == NewDock(Southwest, k + 1, StatusText(Available), None)
  {
    seq(11, k => NewDock(Southwest, k + 1, StatusText(Available), None))
  }

  /** Southwest docks 1..11 named H84 .. H99. */
  function SouthwestNamed(): (r: seq<NewDock>)
    ensures |r| == SouthwestCount
    ensures forall k :: 0 <= k < |r| ==>
      r[k] == NewDock(Southwest, k + 1, StatusText(Available), Some(SouthwestDockNames[k]))
  {
    seq(11, k requires 0 <= k < 11 => NewDock(Southwest, k + 1, StatusText(Available), Some(SouthwestDockNames[k])))
  }

  /** backend/src/index.ts initDb: southeast first, only southwest docks named. */
  function TsSeed(): seq<NewDock>
  {
    SoutheastUnnamed() + SouthwestNamed()
  }

  /** main.py and api/index.py init_db: southeast first, no name column. */
  function PySeed(): seq<NewDock>
  {
    SoutheastUnnamed() + SouthwestUnnamed()
  }

  /** backend_2 InitializeDB: southwest first, every dock named. */
  function GoSeed(): seq<NewDock>
  {
    SouthwestNamed() + SoutheastNamed()
  }

  /**
   * The common shape: every seed dock is available, numbered within its zone,
   * and each (zone, number) seat of the 13 + 11 layout occurs exactly once.
   */
  predicate StandardLayout(seed: seq<NewDock>)
  {
    && |seed| == SoutheastCount + SouthwestCount
    && (forall k :: 0 <= k < |seed| ==> seed[k].status == StatusText(Available))
    && (forall k :: 0 <= k < |seed| ==>
          1 <= seed[k].number <= (if seed[k].location == Southeast then SoutheastCount else SouthwestCount))
    && (forall i, j :: 0 <= i < j < |seed| ==>
          seed[i].location != seed[j].location || seed[i].number != seed[j].number)
    && (forall n :: 1 <= n <= SoutheastCount ==> HasSeat(seed, Southeast, n))
    && (forall n :: 1 <= n <= SouthwestCount ==> HasSeat(seed, Southwest, n))
  }

  predicate HasSeat(seed: seq<NewDock>, loc: Location, n: int)
  {
    exists k :: 0 <= k < |seed| && seed[k].location == loc && seed[k].number == n
  }

  lemma TsSeedLayout()
    ensures StandardLayout(TsSeed())
  {
    var se, sw := SoutheastUnnamed(), SouthwestNamed();
    assert forall k :: 0 <= k < 13 ==> TsSeed()[k] == se[k];
    assert forall k :: 13 <= k < 24 ==> TsSeed()[k] == sw[k - 13];
    forall n | 1 <= n <= SoutheastCount ensures HasSeat(TsSeed(), Southeast, n) {
      assert TsSeed()[n - 1] == se[n - 1];
    }
    forall n | 1 <= n <= SouthwestCount ensures HasSeat(TsSeed(), Southwest, n) {
      assert TsSeed()[n + 12] == sw[n - 1];
    }
  }

  lemma PySeedLayout()
    ensures StandardLayout(PySeed())
  {
    var se, sw := SoutheastUnnamed(), SouthwestUnnamed();
    assert forall k :: 0 <= k < 13 ==> PySeed()[k] == se[k];
    assert forall k :: 13 <= k < 24 ==> PySeed()[k] == sw[k - 13];
    forall n | 1 <= n <= SoutheastCount ensures HasSeat(PySeed(), Southeast, n) {
      assert PySeed()[n - 1] == se[n - 1];
    }
    forall n | 1 <= n <= SouthwestCount ensures HasSeat(PySeed(), Southwest, n) {
      assert PySeed()[n + 12] == sw[n - 1];
    }
  }

  lemma GoSeedLayout()
    ensures StandardLayout(GoSeed())
  {
    var sw, se := SouthwestNamed(), SoutheastNamed();
    assert forall k :: 0 <= k < 11 ==> GoSeed()[k] == sw[k];
    assert forall k :: 11 <= k < 24 ==> GoSeed()[k] == se[k - 11];
    forall n | 1 <= n <= SoutheastCount ensures HasSeat(GoSeed(), Southeast, n) {
      assert GoSeed()[n + 10] == se[n - 1];
    }
    forall n | 1 <= n <= SouthwestCount ensures HasSeat(GoSeed(), Southwest, n) {
      assert GoSeed()[n - 1] == sw[n - 1];
    }
  }

  /** The eleven southwest names are pairwise different. */
  lemma SouthwestNamesDistinct()
    ensures forall i, j :: 0 <= i < j < |SouthwestDockNames| ==> SouthwestDockNames[i] != SouthwestDockNames[j]
  {
    var names := SouthwestDockNames;
    forall i, j | 0 <= i < j < |names| ensures names[i] != names[j] {
      assert names[i][0] == 'H' && |names[i]| == 3;
      assert (names[i][1] as int) * 10 + names[i][2] as int < (names[j][1] as int) * 10 + names[j][2] as int;
    }
  }

  /** Every backend_2 seed dock is named, and no two share a name, as UNIQUE(name) demands. */
  lemma GoSeedNamesDistinct()
    ensures forall k :: 0 <= k < |GoSeed()| ==> GoSeed()[k].name.Some?
    ensures forall i, j :: 0 <= i < j < |GoSeed()| ==> GoSeed()[i].name != GoSeed()[j].name
  {
    var sw, se := SouthwestNamed(), SoutheastNamed();
    var seed := GoSeed();
    assert forall k :: 0 <= k < 11 ==> seed[k] == sw[k];
    assert forall k :: 11 <= k < 24 ==> seed[k] == se[k - 11];
    SouthwestNamesDistinct();
    forall i, j | 0 <= i < j < |seed| ensures seed[i].name != seed[j].name {
      if 11 <= i {
        IntToStringInjective(i - 10, j - 10);
        SamePrefixInjective("Dock ", IntToString(i - 10), IntToString(j - 10));
      } else if 11 <= j {
        assert seed[i].name.value[0] == 'H';
        assert seed[j].name.value[0] == 'D';
      }
    }
  }

  /** Prepending the same text keeps different texts different. */
  lemma SamePrefixInjective(p: string, a: string, b: string)
    requires a != b
    ensures p + a != p + b
  {
    assert (p + a)[|p|..] == a;
    assert (p + b)[|p|..] == b;
  }
}
