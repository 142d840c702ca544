/**
 * js/BombUtils.js: the rules by which an explosion chooses its blocks.
 * A blast sorts the active blocks strictly inside its radius into blocks to
 * destroy, to damage and dynamite to trigger (the shatterer destroys strong
 * and eternal blocks outright); a melter picks the block it hit (or the
 * closest active block) and up to 29 more of the same type nearby; a driller
 * bomb starts drilling once, for a time that grows with its launch power.
 *
 * Blocks are records in a map from block ids (the scene's object
 * references); the scene's lists are sequences of ids. Distances are
 * compared squared, on whole-pixel coordinates. What the scene does with
 * the chosen blocks is in the `Game` module.
 */
module BombUtils {

  import opened Wrappers
  import opened BlockTypes
  import opened Bombs

  /** An ice block of the game scene. */
  datatype IceBlock = IceBlock(x: int, y: int, blockType: string, isActive: bool, hitsLeft: int)

  function Dist2(x: int, y: int, b: IceBlock): int
  {
    (b.x - x) * (b.x - x) + (b.y - y) * (b.y - y)
  }

  /** `Phaser.Math.Distance.Between(x, y, b.x, b.y) < radius`. */
  predicate Within(x: int, y: int, b: IceBlock, radius: int)
  {
    radius > 0 && Dist2(x, y, b) < radius * radius
  }

  /** The list an explosion puts a block in. */
  datatype Category = ToDestroy | ToDamage | ToTrigger | NoList

  /**
   * _categorizeBlocksByDistance's choice for one block (`shatterer` selects
   * destroyBlocksWithShatterer's variant): inactive and distant blocks go
   * nowhere, dynamite is triggered, bouncy blocks only show a hit, strong and
   * eternal blocks are damaged (destroyed by the shatterer), the rest
   * destroyed.
   */
  function Kind(b: IceBlock, x: int, y: int, radius: int, shatterer: bool): Category
  {
    if !b.isActive || !Within(x, y, b, radius) then NoList
    else if b.blockType == Dynamite then ToTrigger
    else if b.blockType == Bouncy then NoList
    else if !shatterer && (b.blockType == Eternal || b.blockType == Strong) then ToDamage
    else ToDestroy
  }

  /** The three lists of an explosion, each with the blocks in scene order. */
  datatype Lists = Lists(destroy: seq<int>, damage: seq<int>, trigger: seq<int>)

  function AddTo(r: Lists, id: int, c: Category): Lists
  {
    match c
    case ToDestroy => r.(destroy := r.destroy + [id])
    case ToDamage => r.(damage := r.damage + [id])
    case ToTrigger => r.(trigger := r.trigger + [id])
    case NoList => r
  }

  /** Filing a block adds it to the list of its category and to no other. */
  lemma AddToMembers(r: Lists, id: int, c: Category)
    ensures var r' := AddTo(r, id, c);
            (forall j :: j in r'.destroy <==> j in r.destroy || (j == id && c == ToDestroy)) &&
            (forall j :: j in r'.damage <==> j in r.damage || (j == id && c == ToDamage)) &&
            (forall j :: j in r'.trigger <==> j in r.trigger || (j == id && c == ToTrigger)) &&
            |r'.destroy| + |r'.damage| + |r'.trigger| <= |r.destroy| + |r.damage| + |r.trigger| + 1
  {
  }

  /** The lists an explosion at (x, y) builds from the scene's `iceBlocks`, in order. */
  function Categorize(blocks: map<int, IceBlock>, ids: seq<int>, x: int, y: int, radius: int, shatterer: bool): (r: Lists)
    ensures forall id :: id in r.destroy <==> id in ids && id in blocks && Kind(blocks[id], x, y, radius, shatterer) == ToDestroy
    ensures forall id :: id in r.damage <==> id in ids && id in blocks && Kind(blocks[id], x, y, radius, shatterer) == ToDamage
    ensures forall id :: id in r.trigger <==> id in ids && id in blocks && Kind(blocks[id], x, y, radius, shatterer) == ToTrigger
    ensures |r.destroy| + |r.damage| + |r.trigger| <= |ids|
    decreases |ids|
  {
    if |ids| == 0 then Lists([], [], [])
    else
      var front := ids[..|ids| - 1];
      var id := ids[|ids| - 1];
      assert ids == front + [id];
      var r := Categorize(blocks, front, x, y, radius, shatterer);
      if id in blocks then
        AddToMembers(r, id, Kind(blocks[id], x, y, radius, shatterer));
        AddTo(r, id, Kind(blocks[id], x, y, radius, shatterer))
      else r
  }

  /**
   * Every listed block is active, inside the radius and in no other list;
   * bouncy blocks are in none.
   */
  lemma CategorizeSound(blocks: map<int, IceBlock>, ids: seq<int>, x: int, y: int, radius: int, shatterer: bool, id: int)
    requires id in blocks
    ensures var r := Categorize(blocks, ids, x, y, radius, shatterer);
            (id in r.destroy || id in r.damage || id in r.trigger ==>
               blocks[id].isActive && Within(x, y, blocks[id], radius) && blocks[id].blockType != Bouncy) &&
            !(id in r.destroy && id in r.damage) && !(id in r.destroy && id in r.trigger) &&
            !(id in r.damage && id in r.trigger) &&
            (id in r.trigger <==>
               (id in ids && blocks[id].isActive && Within(x, y, blocks[id], radius) && blocks[id].blockType == Dynamite))
  {
  }

  /**
   * The shatterer's lists: nothing is merely damaged, and a block is
   * destroyed when a blast would destroy or damage it.
   */
  lemma ShattererDestroysHardBlocks(blocks: map<int, IceBlock>, ids: seq<int>, x: int, y: int, radius: int)
    ensures var s := Categorize(blocks, ids, x, y, radius, true);
            var b := Categorize(blocks, ids, x, y, radius, false);
            s.damage == [] &&
            (forall id :: id in s.destroy <==> id in b.destroy || id in b.damage) &&
            (forall id :: id in s.trigger <==> id in b.trigger)
  {
    ShattererNoDamage(blocks, ids, x, y, radius);
  }

  /** The shatterer leaves the damage list empty. */
  lemma {:induction false} ShattererNoDamage(blocks: map<int, IceBlock>, ids: seq<int>, x: int, y: int, radius: int)
    ensures Categorize(blocks, ids, x, y, radius, true).damage == []
    decreases |ids|
  {
    if |ids| > 0 {
      ShattererNoDamage(blocks, ids[..|ids| - 1], x, y, radius);
    }
  }

  /** _categorizeBlocksByDistance, pushing into the three lists block by block. */
  method CategorizeBlocksByDistance(blocks: map<int, IceBlock>, ids: seq<int>, x: int, y: int, radius: int, shatterer: bool)
    returns (toDestroy: seq<int>, toDamage: seq<int>, toTrigger: seq<int>)
    ensures Lists(toDestroy, toDamage, toTrigger) == Categorize(blocks, ids, x, y, radius, shatterer)
  {
    toDestroy, toDamage, toTrigger := [], [], [];
    for i := 0 to |ids|
      invariant Lists(toDestroy, toDamage, toTrigger) == Categorize(blocks, ids[..i], x, y, radius, shatterer)
    {
      assert ids[..i + 1][..i] == ids[..i];
      var id := ids[i];
      if id in blocks {
        var block := blocks[id];
        if block.isActive && Within(x, y, block, radius) {
          if block.blockType == Dynamite {
            toTrigger := toTrigger + [id];
          } else if block.blockType == Bouncy {
          } else if !shatterer && (block.blockType == Eternal || block.blockType == Strong) {
            toDamage := toDamage + [id];
          } else {
            toDestroy := toDestroy + [id];
          }
        }
      }
    }
    assert ids[..|ids|] == ids;
  }

  /** The melter's search radius for a missed hit, squared. */
  const MeltSearch2: int := 150 * 150

  /**
   * handleMelterBomb's search for the closest active block when no active
   * block was hit: a running minimum starting at 150 that only a strictly
   * closer block replaces. The second component is the squared distance kept.
   */
  function Closest(blocks: map<int, IceBlock>, ids: seq<int>, x: int, y: int): (r: (Option<int>, int))
    ensures r.1 <= MeltSearch2
    ensures r.0.None? ==> r.1 == MeltSearch2
    ensures r.0.Some? ==> r.0.value in ids && r.0.value in blocks && blocks[r.0.value].isActive &&
                          Dist2(x, y, blocks[r.0.value]) == r.1 < MeltSearch2
    ensures forall i :: 0 <= i < |ids| && ids[i] in blocks && blocks[ids[i]].isActive ==> Dist2(x, y, blocks[ids[i]]) >= r.1
    decreases |ids|
  {
    if |ids| == 0 then (None, MeltSearch2)
    else
      var front := ids[..|ids| - 1];
      var id := ids[|ids| - 1];
      assert ids == front + [id];
      var (c, d) := Closest(blocks, front, x, y);
      if id in blocks && blocks[id].isActive && Dist2(x, y, blocks[id]) < d then (Some(id), Dist2(x, y, blocks[id]))
      else (c, d)
  }

  /** Nothing is found exactly when no active block lies strictly within 150. */
  lemma ClosestNoneIff(blocks: map<int, IceBlock>, ids: seq<int>, x: int, y: int)
    ensures Closest(blocks, ids, x, y).0.None? <==>
            forall i :: 0 <= i < |ids| && ids[i] in blocks && blocks[ids[i]].isActive ==> Dist2(x, y, blocks[ids[i]]) >= MeltSearch2
  {
  }

  /** The search loop of handleMelterBomb. */
  method FindClosestBlock(blocks: map<int, IceBlock>, ids: seq<int>, x: int, y: int) returns (closest: Option<int>)
    ensures closest == Closest(blocks, ids, x, y).0
  {
    closest := None;
    var closestDistance := MeltSearch2;
    for i := 0 to |ids|
      invariant (closest, closestDistance) == Closest(blocks, ids[..i], x, y)
    {
      assert ids[..i + 1][..i] == ids[..i];
      var id := ids[i];
      if id in blocks && blocks[id].isActive {
        var distance := Dist2(x, y, blocks[id]);
        if distance < closestDistance {
          closestDistance := distance;
          closest := Some(id);
        }
      }
    }
    assert ids[..|ids|] == ids;
  }

  const MaxBlocksToMelt: int := 30
  const MelterRadius: int := 250

  /** The other active blocks of the target's type within the melter radius, in scene order. */
  function SameTypeNear(blocks: map<int, IceBlock>, ids: seq<int>, target: int, x: int, y: int): (r: seq<int>)
    requires target in blocks
    ensures forall k :: 0 <= k < |r| ==>
              (r[k] in ids && r[k] in blocks && r[k] != target && blocks[r[k]].isActive &&
               blocks[r[k]].blockType == blocks[target].blockType && Within(x, y, blocks[r[k]], MelterRadius))
    ensures forall i :: (0 <= i < |ids| && ids[i] in blocks && ids[i] != target && blocks[ids[i]].isActive &&
                         blocks[ids[i]].blockType == blocks[target].blockType && Within(x, y, blocks[ids[i]], MelterRadius))
                        ==> ids[i] in r
    decreases |ids|
  {
    if |ids| == 0 then []
    else
      var front := ids[..|ids| - 1];
      var id := ids[|ids| - 1];
      assert ids == front + [id];
      var r := SameTypeNear(blocks, front, target, x, y);
      if id in blocks && id != target && blocks[id].isActive && blocks[id].blockType == blocks[target].blockType &&
         Within(x, y, blocks[id], MelterRadius)
      then r + [id] else r
  }

  /** The melt list: the target first, then its same-type neighbours, cut to 30. */
  function MeltTargets(blocks: map<int, IceBlock>, ids: seq<int>, target: int, x: int, y: int): (r: seq<int>)
    requires target in blocks
    ensures 1 <= |r| <= MaxBlocksToMelt && r[0] == target
    ensures forall k :: 1 <= k < |r| ==>
              (r[k] in blocks && r[k] != target && blocks[r[k]].isActive &&
               blocks[r[k]].blockType == blocks[target].blockType && Within(x, y, blocks[r[k]], MelterRadius))
  {
    var all := [target] + SameTypeNear(blocks, ids, target, x, y);
    if |all| <= MaxBlocksToMelt then all else all[..MaxBlocksToMelt]
  }

  /** Below the cap, every qualifying block is melted. */
  lemma MeltTargetsComplete(blocks: map<int, IceBlock>, ids: seq<int>, target: int, x: int, y: int, id: int)
    requires target in blocks && id in ids && id in blocks && id != target && blocks[id].isActive
    requires blocks[id].blockType == blocks[target].blockType && Within(x, y, blocks[id], MelterRadius)
    requires 1 + |SameTypeNear(blocks, ids, target, x, y)| <= MaxBlocksToMelt
    ensures id in MeltTargets(blocks, ids, target, x, y)
  {
    var i :| 0 <= i < |ids| && ids[i] == id;
    assert id in SameTypeNear(blocks, ids, target, x, y);
  }

  /**
   * handleMelterBomb's choice of blocks for a melter landing at (x, y) with
   * the block it hit; `None` is the early exit where nothing melts. A found
   * closest block becomes the target and the centre of the search.
   */
  function MelterSelection(blocks: map<int, IceBlock>, ids: seq<int>, hit: Option<int>, x: int, y: int): Option<seq<int>>
  {
    if hit.Some? && hit.value in blocks && blocks[hit.value].isActive then
      Some(MeltTargets(blocks, ids, hit.value, x, y))
    else
      match Closest(blocks, ids, x, y).0
      case None => None
      case Some(c) => Some(MeltTargets(blocks, ids, c, blocks[c].x, blocks[c].y))
  }

  /**
   * The melt list starts with the hit block when it is active, otherwise with
   * an active block strictly within 150; nothing melts only when neither
   * exists.
   */
  lemma MelterSelectionSpec(blocks: map<int, IceBlock>, ids: seq<int>, hit: Option<int>, x: int, y: int)
    ensures var s := MelterSelection(blocks, ids, hit, x, y);
            (hit.Some? && hit.value in blocks && blocks[hit.value].isActive ==> s.Some? && s.value[0] == hit.value) &&
            (s.Some? ==> 1 <= |s.value| <= MaxBlocksToMelt && s.value[0] in blocks && blocks[s.value[0]].isActive &&
                         (forall k :: 1 <= k < |s.value| ==>
                            (s.value[k] in blocks && blocks[s.value[k]].isActive &&
                             blocks[s.value[k]].blockType == blocks[s.value[0]].blockType))) &&
            (s.None? <==> !(hit.Some? && hit.value in blocks && blocks[hit.value].isActive) &&
                          forall i :: 0 <= i < |ids| && ids[i] in blocks && blocks[ids[i]].isActive ==>
                                        Dist2(x, y, blocks[ids[i]]) >= MeltSearch2)
  {
  }

  /** The shortest drag that launches, and the drill duration bounds in milliseconds. */
  const MinDragForLaunch: real := 20.0
  const MinDrillDuration: real := 500.0
  const MaxDrillDuration: real := 3000.0

  /** handleDrillerBomb's launch power scaled to [0, 1] between the launch minimum and the maximum drag. */
  function NormalizedPower(launchPower: real, maxDrag: real): (r: real)
    ensures 0.0 <= r <= 1.0
  {
    var p := if maxDrag > MinDragForLaunch then (launchPower - MinDragForLaunch) / (maxDrag - MinDragForLaunch) else 0.0;
    if p < 0.0 then 0.0 else if p > 1.0 then 1.0 else p
  }

  function DrillDuration(launchPower: real, maxDrag: real): real
  {
    MinDrillDuration + NormalizedPower(launchPower, maxDrag) * (MaxDrillDuration - MinDrillDuration)
  }

  /** Dividing by a positive number keeps order. */
  lemma DivideMonotone(a: real, b: real, w: real)
    requires w > 0.0 && a <= b
    ensures a / w <= b / w
  {
    var x, y := a / w, b / w;
    assert x * w == a && y * w == b;
  }

  /**
   * The drill lasts between 0.5 and 3 seconds: the minimum for a launch at
   * or below the minimum drag, the maximum at full drag, and never less for
   * a stronger launch.
   */
  lemma DrillDurationBounds(p: real, q: real, maxDrag: real)
    ensures MinDrillDuration <= DrillDuration(p, maxDrag) <= MaxDrillDuration
    ensures p <= MinDragForLaunch ==> DrillDuration(p, maxDrag) == MinDrillDuration
    ensures maxDrag > MinDragForLaunch && p >= maxDrag ==> DrillDuration(p, maxDrag) == MaxDrillDuration
    ensures maxDrag > MinDragForLaunch && p <= q ==> DrillDuration(p, maxDrag) <= DrillDuration(q, maxDrag)
  {
    DrillDurationRange(p, maxDrag);
    if p <= MinDragForLaunch {
      DrillDurationWeakest(p, maxDrag);
    }
    if maxDrag > MinDragForLaunch && p >= maxDrag {
      DrillDurationStrongest(p, maxDrag);
    }
    if maxDrag > MinDragForLaunch && p <= q {
      DrillDurationMonotone(p, q, maxDrag);
    }
  }

  lemma DrillDurationRange(p: real, maxDrag: real)
    ensures MinDrillDuration <= DrillDuration(p, maxDrag) <= MaxDrillDuration
  {
    var n := NormalizedPower(p, maxDrag);
    assert 0.0 <= n * (MaxDrillDuration - MinDrillDuration) <= MaxDrillDuration - MinDrillDuration;
  }

  lemma DrillDurationWeakest(p: real, maxDrag: real)
    requires p <= MinDragForLaunch
    ensures DrillDuration(p, maxDrag) == MinDrillDuration
  {
    if maxDrag > MinDragForLaunch {
      DivideMonotone(p - MinDragForLaunch, 0.0, maxDrag - MinDragForLaunch);
    }
    assert NormalizedPower(p, maxDrag) == 0.0;
  }

  lemma DrillDurationStrongest(p: real, maxDrag: real)
    requires maxDrag > MinDragForLaunch && p >= maxDrag
    ensures DrillDuration(p, maxDrag) == MaxDrillDuration
  {
    var w := maxDrag - MinDragForLaunch;
    DivideMonotone(w, p - MinDragForLaunch, w);
    assert w / w == 1.0;
    assert NormalizedPower(p, maxDrag) == 1.0;
  }

  lemma DrillDurationMonotone(p: real, q: real, maxDrag: real)
    requires maxDrag > MinDragForLaunch && p <= q
    ensures DrillDuration(p, maxDrag) <= DrillDuration(q, maxDrag)
  {
    DivideMonotone(p - MinDragForLaunch, q - MinDragForLaunch, maxDrag - MinDragForLaunch);
    var np, nq := NormalizedPower(p, maxDrag), NormalizedPower(q, maxDrag);
    assert np <= nq;
    assert np * (MaxDrillDuration - MinDrillDuration) <= nq * (MaxDrillDuration - MinDrillDuration);
  }

  /**
   * handleDrillerBomb: no record for a missing bomb or one outside the scene;
   * the existing record (or null) for a bomb already drilling; otherwise the
   * bomb is marked drilling and not exploded, and gets a fresh active record
   * at the impact point with the power-dependent duration.
   */
  method HandleDrillerBomb(bomb: LaunchedBomb?, x: int, y: int, maxDrag: real) returns (r: DrillerData?)
    modifies bomb
    ensures bomb == null || !old(bomb.inScene) ==> r == null
    ensures bomb != null && old(bomb.inScene) && old(bomb.isCurrentlyDrilling) ==>
              r == old(bomb.drillerData) && unchanged(bomb)
    ensures bomb != null && old(bomb.inScene) && !old(bomb.isCurrentlyDrilling) ==>
              r != null && fresh(r) && bomb.drillerData == r && bomb.isCurrentlyDrilling && bomb.isDriller &&
              !bomb.hasExploded && r.currentX == x && r.currentY == y && r.isActive && !r.hasCompletedDrilling &&
              !r.hasBeenTriggeredExternally && r.duration == DrillDuration(bomb.launchPower, maxDrag) &&
              bomb.launchPower == old(bomb.launchPower)
    ensures bomb != null ==> bomb.bombType == old(bomb.bombType) && bomb.inScene == old(bomb.inScene)
  {
    if bomb == null || !bomb.inScene {
      return null;
    }
    if bomb.isCurrentlyDrilling {
      return bomb.drillerData;
    }
    bomb.isCurrentlyDrilling := true;
    bomb.isDriller := true;
    bomb.hasExploded := false;
    r := new DrillerData(x, y, DrillDuration(bomb.launchPower, maxDrag));
    bomb.drillerData := r;
  }
}
