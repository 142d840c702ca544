/**
 * The game scene of js/scenes/GameScene.js, its game-state manager
 * (js/managers/GameStateManager.js) and the parts of js/BombUtils.js that
 * change the scene's blocks. The scene's game-flow fields change exactly as
 * the `GameRules` functions say; its blocks and bomb lists change as the
 * functions on `World` below say.
 *
 * Blocks are records in the map `blocks` from block ids (the block objects'
 * identities); `iceBlocks` and `dynamiteBlocks` are the scene's lists of
 * them. A timer callback (a block's scheduled destruction, damage or
 * dynamite trigger, the victory delay) is a method the caller runs when the
 * timer fires; an explosion returns the callbacks it schedules.
 */
module Game {

  import opened Wrappers
  import opened OrderedMap
  import opened BombNames
  import opened BlockTypes
  import opened Text
  import opened GameRules
  import opened BombUtils
  import opened Bombs
  import LevelManager
  import AudioManager

  type LevelValue = LevelManager.LevelValue

  /** The scene's blocks and the lists it keeps besides the game-flow record. */
  datatype Board = Board(
    blocks: map<int, IceBlock>,
    iceBlocks: seq<int>,
    dynamiteBlocks: seq<int>,
    nextBlockId: int,
    isTransitioningLevel: bool,
    congratulationText: Option<string>)

  /** Everything the block operations read and write. */
  datatype World = World(board: Board, play: Play)

  /** A block that exists and is still active (`block && block.isActive`). */
  predicate Live(b: Board, id: int)
  {
    id in b.blocks && b.blocks[id].isActive
  }

  // ------------------------------------------------------------ block lists

  /** `ids.filter(b => b !== id)`. */
  function Without(ids: seq<int>, id: int): (r: seq<int>)
    ensures forall k :: k in r <==> k in ids && k != id
    ensures |r| <= |ids|
    decreases |ids|
  {
    if |ids| == 0 then []
    else
      var front := ids[..|ids| - 1];
      var last := ids[|ids| - 1];
      assert ids == front + [last];
      Without(front, id) + (if last == id then [] else [last])
  }

  /** `ids.filter(block => block && block.isActive)`, in order. */
  function ActiveOnly(blocks: map<int, IceBlock>, ids: seq<int>): (r: seq<int>)
    ensures forall k :: k in r <==> k in ids && k in blocks && blocks[k].isActive
    ensures |r| <= |ids|
    decreases |ids|
  {
    if |ids| == 0 then []
    else
      var front := ids[..|ids| - 1];
      var last := ids[|ids| - 1];
      assert ids == front + [last];
      ActiveOnly(blocks, front) + (if last in blocks && blocks[last].isActive then [last] else [])
  }

  /** A list of active blocks only is kept as it is. */
  lemma {:induction false} ActiveOnlyKeepsActive(blocks: map<int, IceBlock>, ids: seq<int>)
    requires forall k :: k in ids ==> k in blocks && blocks[k].isActive
    ensures ActiveOnly(blocks, ids) == ids
    decreases |ids|
  {
    if |ids| > 0 {
      var front := ids[..|ids| - 1];
      var last := ids[|ids| - 1];
      assert ids == front + [last];
      assert last in blocks && blocks[last].isActive;
      assert forall k :: k in front ==> k in ids;
      ActiveOnlyKeepsActive(blocks, front);
      assert ActiveOnly(blocks, ids) == ActiveOnly(blocks, front) + [last];
    }
  }

  /** Cleaning up twice is cleaning up once. */
  lemma ActiveOnlyIdempotent(blocks: map<int, IceBlock>, ids: seq<int>)
    ensures ActiveOnly(blocks, ActiveOnly(blocks, ids)) == ActiveOnly(blocks, ids)
  {
    ActiveOnlyKeepsActive(blocks, ActiveOnly(blocks, ids));
  }

  // ------------------------------------------------------------ destroying and damaging

  /** destroyIceBlock's bookkeeping: the block becomes inactive and a dynamite block leaves the dynamite list. */
  function DestroyBlock(b: Board, id: int): Board
    requires id in b.blocks
  {
    var block := b.blocks[id];
    b.(blocks := b.blocks[id := block.(isActive := false)],
       dynamiteBlocks := if block.blockType == Dynamite then Without(b.dynamiteBlocks, id) else b.dynamiteBlocks)
  }

  /** destroyIceBlock: a missing (null) block is ignored; otherwise the bookkeeping and one reveal update. */
  function DestroyIce(w: World, id: int): World
  {
    if id !in w.board.blocks then w
    else World(DestroyBlock(w.board, id), UpdateReveal(w.play))
  }

  /**
   * Destroying a block makes it inactive, takes dynamite off the dynamite
   * list, counts it as cleared and scores it; no other block and no list of
   * the scene's blocks changes (they are cleaned up later).
   */
  lemma DestroyIceEffect(w: World, id: int)
    requires id in w.board.blocks
    ensures var r := DestroyIce(w, id);
            id in r.board.blocks && !r.board.blocks[id].isActive &&
            r.board.blocks[id] == w.board.blocks[id].(isActive := false) &&
            r.board.blocks.Keys == w.board.blocks.Keys &&
            (forall k :: k in w.board.blocks && k != id ==> r.board.blocks[k] == w.board.blocks[k]) &&
            r.board.iceBlocks == w.board.iceBlocks &&
            (w.board.blocks[id].blockType == Dynamite ==> id !in r.board.dynamiteBlocks) &&
            (forall k :: k in r.board.dynamiteBlocks <==> k in w.board.dynamiteBlocks && (k != id || w.board.blocks[id].blockType != Dynamite)) &&
            r.play.progress.cleared == w.play.progress.cleared + 1 && r.play.progress.score == w.play.progress.score + 10
  {
    UpdateRevealCounts(w.play);
  }

  /** destroyIceBlock itself has no guard: destroying the same block twice counts it twice. */
  lemma DestroyIceHasNoGuard(w: World, id: int)
    requires id in w.board.blocks
    ensures DestroyIce(DestroyIce(w, id), id).play.progress.cleared == w.play.progress.cleared + 2
  {
    UpdateRevealCounts(w.play);
    UpdateRevealCounts(UpdateReveal(w.play));
  }

  /** damageIceBlock: the new world and whether the block was destroyed. */
  function DamageIce(w: World, id: int): (World, bool)
  {
    if !Live(w.board, id) then (w, false)
    else
      var block := w.board.blocks[id];
      if block.blockType == Eternal then (w, false)
      else
        var hit := block.(hitsLeft := block.hitsLeft - 1);
        var w1 := w.(board := w.board.(blocks := w.board.blocks[id := hit]));
        if hit.hitsLeft <= 0 then (DestroyIce(w1, id), true) else (w1, false)
  }

  /**
   * An inactive, missing or eternal block is left alone and reported not
   * destroyed; any other block loses one hit and is destroyed (and cleared)
   * exactly when no hits are left.
   */
  lemma DamageIceSpec(w: World, id: int)
    ensures !Live(w.board, id) || w.board.blocks[id].blockType == Eternal ==> DamageIce(w, id) == (w, false)
    ensures Live(w.board, id) && w.board.blocks[id].blockType != Eternal ==>
              var r := DamageIce(w, id);
              r.0.board.blocks[id].hitsLeft == w.board.blocks[id].hitsLeft - 1 &&
              (r.1 <==> w.board.blocks[id].hitsLeft <= 1) &&
              (r.1 ==> !r.0.board.blocks[id].isActive && r.0.play.progress.cleared == w.play.progress.cleared + 1) &&
              (!r.1 ==> r.0.board.blocks[id].isActive && r.0.play == w.play)
  {
    if Live(w.board, id) && w.board.blocks[id].blockType != Eternal {
      var block := w.board.blocks[id];
      var hit := block.(hitsLeft := block.hitsLeft - 1);
      var w1 := w.(board := w.board.(blocks := w.board.blocks[id := hit]));
      if hit.hitsLeft <= 0 {
        DestroyIceEffect(w1, id);
      }
    }
  }

  // ------------------------------------------------------------ scheduled callbacks

  /** The radius of the explosion a triggered dynamite block sets off. */
  const DynamiteChainRadius: int := 120

  /** A scheduled destruction: skipped once the block is inactive. */
  function FireDestroy(w: World, id: int): World
  {
    if Live(w.board, id) then DestroyIce(w, id) else w
  }

  /** A scheduled damage: skipped once the block is inactive. */
  function FireDamage(w: World, id: int): World
  {
    if Live(w.board, id) then DamageIce(w, id).0 else w
  }

  /**
   * A scheduled dynamite trigger: skipped once the block is inactive;
   * otherwise the block is destroyed and an explosion of radius 120 at its
   * position schedules the next callbacks.
   */
  function FireTrigger(w: World, id: int): (World, Option<Lists>)
  {
    if !Live(w.board, id) then (w, None)
    else
      var block := w.board.blocks[id];
      var w1 := DestroyIce(w, id);
      (w1, Some(Categorize(w1.board.blocks, w1.board.iceBlocks, block.x, block.y, DynamiteChainRadius, false)))
  }

  /** Every callback re-checks its block: on an inactive or missing block none of them changes anything. */
  lemma CallbacksRecheck(w: World, id: int)
    requires !Live(w.board, id)
    ensures FireDestroy(w, id) == w && FireDamage(w, id) == w && FireTrigger(w, id) == (w, None)
  {
  }

  /** A block is destroyed by its callbacks at most once: a second destruction callback does nothing. */
  lemma FireDestroyOnce(w: World, id: int)
    ensures FireDestroy(FireDestroy(w, id), id) == FireDestroy(w, id)
    ensures Live(w.board, id) ==> FireDestroy(w, id).play.progress.cleared == w.play.progress.cleared + 1
  {
    if Live(w.board, id) {
      DestroyIceEffect(w, id);
    }
  }

  /** A triggered dynamite block is inactive afterwards, so the chain explosion it sets off never lists it again. */
  lemma ChainSkipsTrigger(w: World, id: int)
    requires Live(w.board, id)
    ensures var r := FireTrigger(w, id);
            r.1.Some? && !Live(r.0.board, id) &&
            id !in r.1.value.destroy && id !in r.1.value.damage && id !in r.1.value.trigger &&
            r.0.play.progress.cleared == w.play.progress.cleared + 1
  {
    DestroyIceEffect(w, id);
    var w1 := DestroyIce(w, id);
    var block := w.board.blocks[id];
    CategorizeSound(w1.board.blocks, w1.board.iceBlocks, block.x, block.y, DynamiteChainRadius, false, id);
  }

  // ------------------------------------------------------------ creating blocks

  /** _createSingleBlock's type: a string that lower-cases to a known type, else STANDARD. */
  function NormalizeBlockType(blockType: Option<string>): (t: string)
    ensures t in Types
  {
    if blockType.Some? && LowerStr(blockType.value) in Types then LowerStr(blockType.value) else Standard
  }

  /** A known type in any letter case is recognised; anything else (and a non-string) is STANDARD. */
  lemma NormalizeBlockTypeSpec(t: string)
    ensures t in Types ==> NormalizeBlockType(Some(t)) == t && NormalizeBlockType(Some(UpperStr(t))) == t
    ensures LowerStr(t) !in Types ==> NormalizeBlockType(Some(t)) == Standard
    ensures NormalizeBlockType(None) == Standard
  {
    if t in Types {
      assert IsLower(t) by {
        assert IsLower(Standard) && IsLower(Strong) && IsLower(Dynamite) && IsLower(Eternal) && IsLower(Bouncy);
      }
      LowerUpperStr(t);
      LowerStrIdempotent(t);
      assert LowerStr(t) == t by {
        forall i | 0 <= i < |t|
          ensures LowerStr(t)[i] == t[i]
        {
        }
      }
    }
  }

  /** _createSingleBlock: a new active block of the normalised type with its hit points, listed and counted. */
  function CreateBlock(w: World, x: int, y: int, blockType: Option<string>): World
  {
    var t := NormalizeBlockType(blockType);
    var id := w.board.nextBlockId;
    World(w.board.(blocks := w.board.blocks[id := IceBlock(x, y, t, true, GetHitPoints(t))],
                   iceBlocks := w.board.iceBlocks + [id],
                   dynamiteBlocks := if t == Dynamite then w.board.dynamiteBlocks + [id] else w.board.dynamiteBlocks,
                   nextBlockId := id + 1),
          w.play.(progress := w.play.progress.(total := w.play.progress.total + 1)))
  }

  /**
   * The new block is live, has a fresh id, at least one hit point and is on
   * the dynamite list exactly when it is dynamite; the level's block total
   * grows by one and nothing else changes.
   */
  lemma CreateBlockSpec(w: World, x: int, y: int, blockType: Option<string>)
    requires forall k :: k in w.board.blocks ==> k < w.board.nextBlockId
    ensures var r := CreateBlock(w, x, y, blockType);
            var id := w.board.nextBlockId;
            id !in w.board.blocks && Live(r.board, id) && r.board.blocks[id].blockType in Types &&
            r.board.blocks[id].hitsLeft >= 1 && r.board.iceBlocks == w.board.iceBlocks + [id] &&
            (r.board.blocks[id].blockType == Dynamite ==> r.board.dynamiteBlocks == w.board.dynamiteBlocks + [id]) &&
            (r.board.blocks[id].blockType != Dynamite ==> r.board.dynamiteBlocks == w.board.dynamiteBlocks) &&
            (forall k :: k in w.board.blocks ==> k in r.board.blocks && r.board.blocks[k] == w.board.blocks[k]) &&
            (forall k :: k in r.board.blocks ==> k < r.board.nextBlockId) &&
            r.play == w.play.(progress := w.play.progress.(total := w.play.progress.total + 1))
  {
    var t := NormalizeBlockType(blockType);
    HitPointsPositive(t);
  }

  // ------------------------------------------------------------ other scene rules

  /** handleGoToNextLevel: once only per transition; without the UI scene, the CG scene is started directly with one star. */
  function GoToNextLevel(w: World, uiSceneActive: bool): World
  {
    if w.board.isTransitioningLevel then w
    else
      var w1 := w.(board := w.board.(isTransitioningLevel := true));
      if uiSceneActive then w1
      else w1.(play := w1.play.(events := w1.play.events +
                 [StartCg(w.play.progress.level, 1, w.play.progress.score, w.play.progress.revealPercentage)]))
  }

  /** The transition guard: a second request during a transition changes nothing. */
  lemma NextLevelOnce(w: World, first: bool, second: bool)
    ensures GoToNextLevel(GoToNextLevel(w, first), second) == GoToNextLevel(w, first)
    ensures GoToNextLevel(w, first).board.isTransitioningLevel
    ensures !w.board.isTransitioningLevel && !first ==>
              GoToNextLevel(w, first).play.events == w.play.events + [StartCg(w.play.progress.level, 1, w.play.progress.score, w.play.progress.revealPercentage)]
  {
  }

  /** displayCongratulationText: the formatted message replaces any shown one. */
  function ShowCongratulation(w: World, message: string): World
  {
    w.(board := w.board.(congratulationText := Some(AudioManager.FormatCongratulation(message))))
  }

  /** Showing the text that is already shown changes nothing. */
  lemma ShowCongratulationStable(w: World, message: string)
    ensures var r := ShowCongratulation(w, message);
            ShowCongratulation(r, r.board.congratulationText.value) == r
  {
    AudioManager.FormatIdempotent(message);
  }

  // ------------------------------------------------------------ sticky and driller bombs

  /** `Phaser.Math.Distance.Between(x, y, px, py) < radius`, on whole pixels. */
  predicate Near(x: int, y: int, px: int, py: int, radius: int)
  {
    radius > 0 && (px - x) * (px - x) + (py - y) * (py - y) < radius * radius
  }

  /** No object is listed twice. */
  predicate Distinct<T(==)>(s: seq<T>)
  {
    forall i, j :: 0 <= i < j < |s| ==> s[i] != s[j]
  }

  /** A sticky bomb still in play: active, with its sprite in the scene. */
  predicate StickyLive(s: StickyBomb)
    reads s
  {
    s.isActive && s.spriteInScene
  }

  /** A live sticky bomb strictly inside the explosion. */
  predicate StickyHit(s: StickyBomb, x: int, y: int, radius: int)
    reads s
  {
    StickyLive(s) && Near(x, y, s.x, s.y, radius)
  }

  /** The sticky bombs triggerStickyBomb keeps listed: live and outside the explosion, in order. */
  function StickyKept(list: seq<StickyBomb>, x: int, y: int, radius: int): (r: seq<StickyBomb>)
    reads set s | s in list
    ensures forall i :: 0 <= i < |r| ==> r[i] in list && StickyLive(r[i]) && !StickyHit(r[i], x, y, radius)
    ensures forall i :: 0 <= i < |list| && StickyLive(list[i]) && !StickyHit(list[i], x, y, radius) ==> list[i] in r
    decreases |list|
  {
    if |list| == 0 then []
    else
      var front := list[..|list| - 1];
      var last := list[|list| - 1];
      assert list == front + [last];
      StickyKept(front, x, y, radius) + (if StickyLive(last) && !StickyHit(last, x, y, radius) then [last] else [])
  }

  /** The sticky bombs it sets off, in order. */
  function StickyTriggered(list: seq<StickyBomb>, x: int, y: int, radius: int): (r: seq<StickyBomb>)
    reads set s | s in list
    ensures forall i :: 0 <= i < |r| ==> r[i] in list && StickyHit(r[i], x, y, radius)
    ensures forall i :: 0 <= i < |list| && StickyHit(list[i], x, y, radius) ==> list[i] in r
    decreases |list|
  {
    if |list| == 0 then []
    else
      var front := list[..|list| - 1];
      var last := list[|list| - 1];
      assert list == front + [last];
      StickyTriggered(front, x, y, radius) + (if StickyHit(last, x, y, radius) then [last] else [])
  }

  /** A driller record whose bomb is still in the scene. */
  predicate DrillerLive(d: DrillerData)
    reads d
  {
    d.bombInScene
  }

  /** A driller bomb that has finished drilling, was not set off before, and lies strictly inside the explosion. */
  predicate DrillerHit(d: DrillerData, x: int, y: int, radius: int)
    reads d
  {
    DrillerLive(d) && d.hasCompletedDrilling && !d.hasBeenTriggeredExternally && Near(x, y, d.currentX, d.currentY, radius)
  }

  /** The driller records that stay listed (still drilling ones included), in order. */
  function DrillerKept(list: seq<DrillerData>, x: int, y: int, radius: int): (r: seq<DrillerData>)
    reads set d | d in list
    ensures forall i :: 0 <= i < |r| ==> r[i] in list && DrillerLive(r[i]) && !DrillerHit(r[i], x, y, radius)
    ensures forall i :: 0 <= i < |list| && DrillerLive(list[i]) && !DrillerHit(list[i], x, y, radius) ==> list[i] in r
    decreases |list|
  {
    if |list| == 0 then []
    else
      var front := list[..|list| - 1];
      var last := list[|list| - 1];
      assert list == front + [last];
      DrillerKept(front, x, y, radius) + (if DrillerLive(last) && !DrillerHit(last, x, y, radius) then [last] else [])
  }

  /** The driller bombs it sets off, in order. */
  function DrillerTriggered(list: seq<DrillerData>, x: int, y: int, radius: int): (r: seq<DrillerData>)
    reads set d | d in list
    ensures forall i :: 0 <= i < |r| ==> r[i] in list && DrillerHit(r[i], x, y, radius)
    ensures forall i :: 0 <= i < |list| && DrillerHit(list[i], x, y, radius) ==> list[i] in r
    decreases |list|
  {
    if |list| == 0 then []
    else
      var front := list[..|list| - 1];
      var last := list[|list| - 1];
      assert list == front + [last];
      DrillerTriggered(front, x, y, radius) + (if DrillerHit(last, x, y, radius) then [last] else [])
  }

  /** Every live bomb is either kept or set off, never both; nothing else is either. */
  lemma StickyPartition(list: seq<StickyBomb>, x: int, y: int, radius: int, s: StickyBomb)
    requires s in list
    ensures StickyLive(s) <==> (s in StickyKept(list, x, y, radius) || s in StickyTriggered(list, x, y, radius))
    ensures !(s in StickyKept(list, x, y, radius) && s in StickyTriggered(list, x, y, radius))
  {
  }

  /** The same for driller records: a record whose bomb is in the scene is kept or set off, never both. */
  lemma DrillerPartition(list: seq<DrillerData>, x: int, y: int, radius: int, d: DrillerData)
    requires d in list
    ensures DrillerLive(d) <==> (d in DrillerKept(list, x, y, radius) || d in DrillerTriggered(list, x, y, radius))
    ensures !(d in DrillerKept(list, x, y, radius) && d in DrillerTriggered(list, x, y, radius))
  {
  }

  /** A list with no bomb inside the explosion sets nothing off. */
  lemma {:induction false} NoStickyHit(list: seq<StickyBomb>, x: int, y: int, radius: int)
    requires forall i :: 0 <= i < |list| ==> !StickyHit(list[i], x, y, radius)
    ensures StickyTriggered(list, x, y, radius) == []
    decreases |list|
  {
    if |list| > 0 {
      NoStickyHit(list[..|list| - 1], x, y, radius);
    }
  }

  /** The same for driller records. */
  lemma {:induction false} NoDrillerHit(list: seq<DrillerData>, x: int, y: int, radius: int)
    requires forall i :: 0 <= i < |list| ==> !DrillerHit(list[i], x, y, radius)
    ensures DrillerTriggered(list, x, y, radius) == []
    decreases |list|
  {
    if |list| > 0 {
      NoDrillerHit(list[..|list| - 1], x, y, radius);
    }
  }

  /** The kept bombs are all outside the explosion: the same explosion finds nothing more among them. */
  lemma RetriggerFindsNothing(list: seq<StickyBomb>, drillers: seq<DrillerData>, x: int, y: int, radius: int)
    ensures StickyTriggered(StickyKept(list, x, y, radius), x, y, radius) == []
    ensures DrillerTriggered(DrillerKept(drillers, x, y, radius), x, y, radius) == []
  {
    NoStickyHit(StickyKept(list, x, y, radius), x, y, radius);
    NoDrillerHit(DrillerKept(drillers, x, y, radius), x, y, radius);
  }

  /** One record of the sticky filter: marks a live bomb inside the explosion inactive, reporting whether it did. */
  method StickyStep(s: StickyBomb, x: int, y: int, radius: int) returns (fired: bool)
    requires s.isActive && s.spriteInScene
    modifies s
    ensures fired == old(StickyHit(s, x, y, radius))
    ensures fired ==> !s.isActive && s.x == old(s.x) && s.y == old(s.y) && s.spriteInScene == old(s.spriteInScene)
    ensures !fired ==> unchanged(s)
  {
    fired := Near(x, y, s.x, s.y, radius);
    if fired {
      s.isActive := false;
    }
  }

  /**
   * The sticky half of triggerStickyBomb's filter: a live bomb inside the
   * explosion is marked inactive and set off, a live one outside is kept,
   * and a dead one is dropped. No other field of any bomb changes.
   */
  method FilterStickyBombs(list: seq<StickyBomb>, x: int, y: int, radius: int) returns (kept: seq<StickyBomb>, hit: seq<StickyBomb>)
    requires Distinct(list)
    modifies set s | s in list
    ensures kept == old(StickyKept(list, x, y, radius)) && hit == old(StickyTriggered(list, x, y, radius))
    ensures forall s :: s in list && old(StickyHit(s, x, y, radius)) ==>
              !s.isActive && s.x == old(s.x) && s.y == old(s.y) && s.spriteInScene == old(s.spriteInScene)
    ensures forall s :: s in list && !old(StickyHit(s, x, y, radius)) ==> unchanged(s)
  {
    kept, hit := [], [];
    var i := 0;
    while i < |list|
      invariant 0 <= i <= |list|
      invariant kept == old(StickyKept(list[..i], x, y, radius)) && hit == old(StickyTriggered(list[..i], x, y, radius))
      invariant forall j :: 0 <= j < i && old(StickyHit(list[j], x, y, radius)) ==>
                  !list[j].isActive && list[j].x == old(list[j].x) && list[j].y == old(list[j].y) &&
                  list[j].spriteInScene == old(list[j].spriteInScene)
      invariant forall j :: 0 <= j < |list| && !(j < i && old(StickyHit(list[j], x, y, radius))) ==> unchanged(list[j])
    {
      var s := list[i];
      assert list[..i + 1][..i] == list[..i];
      if s.isActive && s.spriteInScene {
        var fired := StickyStep(s, x, y, radius);
        if fired {
          hit := hit + [s];
        } else {
          kept := kept + [s];
        }
      }
      i := i + 1;
    }
    assert list[..i] == list;
  }

  /** One record of the driller filter: sets off a live driller inside the explosion, reporting whether it did. */
  method DrillerStep(d: DrillerData, x: int, y: int, radius: int) returns (fired: bool)
    requires DrillerLive(d)
    modifies d
    ensures fired == old(DrillerHit(d, x, y, radius))
    ensures fired ==> DrillerSpent(d)
    ensures !fired ==> unchanged(d)
  {
    fired := d.hasCompletedDrilling && !d.hasBeenTriggeredExternally && Near(x, y, d.currentX, d.currentY, radius);
    if fired {
      d.hasBeenTriggeredExternally := true;
      d.isActive := false;
      d.bombInScene := false;
    }
  }

  /** What setting off a driller leaves: triggered, inactive, its bomb detached; position, duration and completion kept. */
  twostate predicate DrillerSpent(d: DrillerData)
    reads d
  {
    d.hasBeenTriggeredExternally && !d.isActive && !d.bombInScene &&
    d.currentX == old(d.currentX) && d.currentY == old(d.currentY) &&
    d.hasCompletedDrilling == old(d.hasCompletedDrilling) && d.duration == old(d.duration)
  }

  /**
   * The driller half: a finished, not yet triggered driller inside the
   * explosion is marked triggered and inactive, and its detonation detaches
   * its bomb from the scene; records whose bomb left the scene are dropped,
   * still drilling ones are kept.
   */
  method FilterDrillerBombs(list: seq<DrillerData>, x: int, y: int, radius: int) returns (kept: seq<DrillerData>, hit: seq<DrillerData>)
    requires Distinct(list)
    modifies set d | d in list
    ensures kept == old(DrillerKept(list, x, y, radius)) && hit == old(DrillerTriggered(list, x, y, radius))
    ensures forall d :: d in list && old(DrillerHit(d, x, y, radius)) ==> DrillerSpent(d)
    ensures forall d :: d in list && !old(DrillerHit(d, x, y, radius)) ==> unchanged(d)
  {
    kept, hit := [], [];
    var i := 0;
    while i < |list|
      invariant 0 <= i <= |list|
      invariant kept == old(DrillerKept(list[..i], x, y, radius)) && hit == old(DrillerTriggered(list[..i], x, y, radius))
      invariant forall j :: 0 <= j < i && old(DrillerHit(list[j], x, y, radius)) ==> DrillerSpent(list[j])
      invariant forall j :: 0 <= j < |list| && !(j < i && old(DrillerHit(list[j], x, y, radius))) ==> unchanged(list[j])
    {
      var d := list[i];
      assert list[..i + 1][..i] == list[..i];
      var live := d.bombInScene;
      if live {
        var fired := DrillerStep(d, x, y, radius);
        if fired {
          hit := hit + [d];
        } else {
          kept := kept + [d];
        }
      }
      i := i + 1;
    }
    assert list[..i] == list;
  }

  // ------------------------------------------------------------ the game-state manager

  /**
   * The game-state manager. Its four flags (isLevelComplete, isGameOver,
   * lastBombActive, waitingForLastBomb) are held in the scene's record, as
   * `scene.flow.manager`.
   */
  class GameStateManager {
    const scene: GameScene

    constructor (scene: GameScene)
      ensures this.scene == scene
    {
      this.scene := scene;
    }

    /** checkLevelCompletion: marks the level complete once the target is reached. */
    method CheckLevelCompletion()
      requires scene.Valid() && scene.gameStateManager == this
      modifies scene
      ensures scene.Valid() && scene.gameStateManager == this && scene.BoardState() == old(scene.BoardState())
      ensures scene.flow == GameRules.ManagerCheckLevelCompletion(old(scene.flow))
    {
      if scene.flow.manager.isLevelComplete {
        return;
      }
      if scene.flow.progress.revealPercentage >= scene.flow.progress.target {
        scene.flow := scene.flow.(manager := scene.flow.manager.(isLevelComplete := true));
      }
    }

    /** checkGameOver: defers to the scene's check, waiting for a last bomb in flight. */
    method CheckGameOver()
      requires scene.Valid() && scene.gameStateManager == this
      modifies scene
      ensures scene.Valid() && scene.gameStateManager == this && scene.BoardState() == old(scene.BoardState())
      ensures scene.flow == GameRules.ManagerCheckGameOver(old(scene.flow))
      decreases 2
    {
      var anyBombsAvailable := AnyPositive(scene.flow.bombs);
      scene.flow := scene.flow.(manager := scene.flow.manager.(isGameOver := scene.flow.outcome.isGameOver,
                                                              isLevelComplete := scene.flow.outcome.isLevelComplete));
      if scene.flow.manager.isGameOver || scene.flow.manager.isLevelComplete {
        return;
      }
      if !anyBombsAvailable && scene.flow.control.activeBomb {
        scene.flow := scene.flow.(manager := scene.flow.manager.(lastBombActive := true, waitingForLastBomb := true));
        return;
      }
      if scene.flow.manager.waitingForLastBomb {
        if !scene.flow.control.activeBomb {
          scene.flow := scene.flow.(manager := scene.flow.manager.(lastBombActive := false, waitingForLastBomb := false));
        } else {
          return;
        }
      }
      if !anyBombsAvailable && scene.flow.progress.revealPercentage < scene.flow.progress.target {
        scene.CheckGameOver();
      }
    }

    /** forceResetGameState: the scene re-runs its completion check (which checks game over). */
    method ForceResetGameState()
      requires scene.Valid() && scene.gameStateManager == this
      modifies scene
      ensures scene.Valid() && scene.gameStateManager == this && scene.BoardState() == old(scene.BoardState())
      ensures scene.flow == GameRules.SceneCheckLevelCompletion(old(scene.flow))
    {
      scene.CheckLevelCompletion();
    }

    /** checkGameState at time `now`, with what it reads of the launcher and its bomb in `w`. */
    method CheckGameState(w: Watch, now: int)
      requires scene.Valid() && scene.gameStateManager == this
      modifies scene
      ensures scene.Valid() && scene.gameStateManager == this && scene.BoardState() == old(scene.BoardState())
      ensures scene.flow == GameRules.CheckGameState(old(scene.flow), w, now)
    {
      if !w.ready {
        return;
      }
      if w.bombPresent && w.bombLaunched && now - w.lastBombFired > w.maxIdleTime {
        if w.bombIsRicochet || w.bombType == Ricochet {
          return;
        }
        ForceResetGameState();
        return;
      }
      var canCreateBomb := w.shotsRemaining > 0 && !scene.flow.manager.isLevelComplete &&
                           !scene.flow.manager.isGameOver && !w.paused;
      if !canCreateBomb {
        return;
      }
      var noBombExists := (!w.bombPresent || !w.bombInScene) && !w.launcherHasBomb;
      if noBombExists && now - w.lastResetTime > NoBombGrace {
        ForceResetGameState();
        return;
      }
      if w.pendingReset.Some? && w.pendingReset.value != 0 && now - w.pendingReset.value > PendingResetGrace {
        ForceResetGameState();
      }
    }

    /** resetGameState: the outcome flags of both objects, the setter and the last-bomb flags are cleared. */
    method ResetGameState()
      requires scene.Valid() && scene.gameStateManager == this
      modifies scene
      ensures scene.Valid() && scene.gameStateManager == this && scene.BoardState() == old(scene.BoardState())
      ensures scene.flow == GameRules.ResetGameState(old(scene.flow))
    {
      scene.flow := scene.flow.(manager := Manager(false, false, false, false));
      scene.flow := scene.flow.(outcome := scene.flow.outcome.(isLevelComplete := false, isGameOver := false, gameOverSetBy := None));
    }

    /** shutdown: only the last-bomb flags are cleared. */
    method Shutdown()
      requires scene.Valid() && scene.gameStateManager == this
      modifies scene
      ensures scene.Valid() && scene.gameStateManager == this && scene.BoardState() == old(scene.BoardState())
      ensures scene.flow == old(scene.flow).(manager := old(scene.flow).manager.(lastBombActive := false, waitingForLastBomb := false))
    {
      scene.flow := scene.flow.(manager := scene.flow.manager.(lastBombActive := false, waitingForLastBomb := false));
    }
  }

  // ------------------------------------------------------------ the game scene

  /** The detonation radii of a triggered sticky bomb (its explosionRadius) and of a driller's explosion. */
  const StickyBlastRadius := 440
  const DrillerBlastRadius := 360

  /** A timed detonation armed by a sticky bomb: destroyBlocksInRadius(x, y, radius) when the timer fires. */
  datatype Detonation = Detonation(x: int, y: int, radius: int)

  /** Where the given sticky bombs sit. */
  function StickyPositions(list: seq<StickyBomb>): (r: seq<(int, int)>)
    reads set s | s in list
    ensures |r| == |list| && forall k :: 0 <= k < |list| ==> r[k] == (list[k].x, list[k].y)
  {
    seq(|list|, k reads set s | s in list requires 0 <= k < |list| => (list[k].x, list[k].y))
  }

  /** Where the given driller bombs sit. */
  function DrillerPositions(list: seq<DrillerData>): (r: seq<(int, int)>)
    reads set d | d in list
    ensures |r| == |list| && forall k :: 0 <= k < |list| ==> r[k] == (list[k].currentX, list[k].currentY)
  {
    seq(|list|, k reads set d | d in list requires 0 <= k < |list| => (list[k].currentX, list[k].currentY))
  }

  /** One timed sticky-bomb blast per position, in order. */
  predicate BlastsOf(points: seq<(int, int)>, blasts: seq<Detonation>)
  {
    |blasts| == |points| &&
    forall k :: 0 <= k < |points| ==> blasts[k] == Detonation(points[k].0, points[k].1, StickyBlastRadius)
  }

  /** One driller explosion's scheduled callbacks per position, in order. */
  predicate DrillerBlastsOf(blocks: map<int, IceBlock>, ice: seq<int>, points: seq<(int, int)>, blasts: seq<Lists>)
  {
    |blasts| == |points| &&
    forall k :: 0 <= k < |points| ==> blasts[k] == Categorize(blocks, ice, points[k].0, points[k].1, DrillerBlastRadius, false)
  }

  class GameScene {
    /**
     * The scene's game-flow fields (bombsRemaining, currentBombType,
     * clearedIceBlocks, totalIceBlocks, revealPercentage, ...; see
     * GameRules.Play) kept together in one record, with the game-state
     * manager's flags.
     */
    var flow: Play

    // blocks and bomb bookkeeping (see Board)
    var blocks: map<int, IceBlock>
    var iceBlocks: seq<int>
    var dynamiteBlocks: seq<int>
    var nextBlockId: int
    var isTransitioningLevel: bool
    var congratulationText: Option<string>
    var activeStickyBombs: seq<StickyBomb>
    var activeDrillerBombs: seq<DrillerData>

    /** Set in create(). */
    var gameStateManager: GameStateManager?

    /** The scene and its game-state manager refer to each other. */
    ghost predicate Valid()
      reads this, gameStateManager
    {
      gameStateManager != null && gameStateManager.scene == this
    }

    function BoardState(): Board
      reads this
    {
      Board(blocks, iceBlocks, dynamiteBlocks, nextBlockId, isTransitioningLevel, congratulationText)
    }

    function Snapshot(): World
      reads this
    {
      World(BoardState(), flow)
    }

    /**
     * The constructor's defaults followed by create()'s resets: counts reset,
     * 999 shots, both bomb states inactive, debug mode on, and the game-state
     * manager made and reset.
     */
    constructor (level: int, targetPercentage: int)
      ensures Valid() && fresh(gameStateManager)
      ensures flow == NewGameFlow(level, targetPercentage)
      ensures BoardState() == Board(map[], [], [], 0, false, None)
      ensures activeStickyBombs == [] && activeDrillerBombs == []
    {
      flow := NewGameFlow(level, targetPercentage);
      blocks := map[];
      iceBlocks := [];
      dynamiteBlocks := [];
      nextBlockId := 0;
      isTransitioningLevel := false;
      congratulationText := None;
      gameStateManager := null;
      new;
      gameStateManager := new GameStateManager(this);
      gameStateManager.ResetGameState();
      NewGameFlowSettled(level, targetPercentage);
      activeStickyBombs := [];
      activeDrillerBombs := [];
    }

    // ---------------------------------------------------------- inventory

    /** selectBombType: a new bomb is created unless the player is aiming. */
    method SelectBombType(bombType: string)
      requires Valid()
      modifies this
      ensures Valid() && gameStateManager == old(gameStateManager) && BoardState() == old(BoardState())
      ensures flow == GameRules.SelectBombType(old(flow), bombType)
    {
      flow := flow.(currentBombType := bombType);
      if !Aiming(flow.control) {
        flow := flow.(events := flow.events + [CreateBomb(bombType)]);
      }
      flow := flow.(events := flow.events + [BombTypeSelected(bombType)]);
    }

    /** handleBombTypeSelectionRequest: only a type in stock is selected. */
    method HandleBombTypeSelectionRequest(bombType: string)
      requires Valid()
      modifies this
      ensures Valid() && gameStateManager == old(gameStateManager) && BoardState() == old(BoardState())
      ensures flow == GameRules.HandleSelectionRequest(old(flow), bombType)
    {
      if bombType in flow.bombs.vals && flow.bombs.vals[bombType] > 0 {
        SelectBombType(bombType);
      } else {
        flow := flow.(events := flow.events + [ErrorSound]);
      }
    }

    /** decrementBombCount: at zero, the next type in stock is selected, or game over is checked. */
    method DecrementBombCount(bombType: string)
      requires Valid()
      modifies this
      ensures Valid() && gameStateManager == old(gameStateManager) && BoardState() == old(BoardState())
      ensures flow == GameRules.Decrement(old(flow), bombType)
    {
      if bombType in flow.bombs.vals {
        var oldCount := flow.bombs.vals[bombType];
        if oldCount > 0 {
          flow := flow.(bombs := Put(flow.bombs, bombType, oldCount - 1));
          var newCount := flow.bombs.vals[bombType];
          flow := flow.(events := flow.events + [BombCountUpdated(bombType, newCount)]);
          if newCount == 0 {
            var availableBombType := FirstPositive(flow.bombs);
            if availableBombType.Some? {
              SelectBombType(availableBombType.value);
            } else {
              CheckGameOver();
            }
          }
        }
      }
    }

    /** resetBombCounts: the nine types at zero except three melters. */
    method ResetBombCounts()
      requires Valid()
      modifies this
      ensures Valid() && gameStateManager == old(gameStateManager) && BoardState() == old(BoardState())
      ensures flow == old(flow).(bombs := ResetCounts())
    {
      flow := flow.(bombs := ResetCounts());
    }

    /** setupFallbackBombs: the built-in table for the current level. */
    method SetupFallbackBombs()
      requires Valid()
      modifies this
      ensures Valid() && gameStateManager == old(gameStateManager) && BoardState() == old(BoardState())
      ensures flow == old(flow).(bombs := FallbackCounts(old(flow).progress.level).0,
                                       currentBombType := FallbackCounts(old(flow).progress.level).1)
    {
      var fallback := FallbackCounts(flow.progress.level);
      flow := flow.(bombs := fallback.0, currentBombType := fallback.1);
    }

    /** Step 1 of setupBombs: every existing count set to 0, in key order. */
    method ZeroBombCounts()
      requires Valid() && OrderedMap.Valid(flow.bombs)
      modifies this
      ensures Valid() && gameStateManager == old(gameStateManager) && BoardState() == old(BoardState())
      ensures flow == old(flow).(bombs := SetAll(old(flow).bombs, 0))
    {
      var keys := flow.bombs.keys;
      var i := 0;
      while i < |keys|
        invariant 0 <= i <= |keys|
        invariant Valid() && gameStateManager == old(gameStateManager) && BoardState() == old(BoardState())
        invariant flow == old(flow).(bombs := flow.bombs)
        invariant flow.bombs.keys == keys && flow.bombs.vals.Keys == old(flow).bombs.vals.Keys
        invariant forall k :: k in flow.bombs.vals ==>
                    flow.bombs.vals[k] == (if k in keys[..i] then 0 else old(flow).bombs.vals[k])
      {
        flow := flow.(bombs := Put(flow.bombs, keys[i], 0));
        i := i + 1;
      }
      assert keys[..i] == keys;
      assert flow.bombs.vals == SetAll(old(flow).bombs, 0).vals;
    }

    /** Step 2 of setupBombs: the level's entries applied in key order. */
    method ApplyLevelBombs(table: Dict<LevelValue>)
      requires Valid()
      modifies this
      ensures Valid() && gameStateManager == old(gameStateManager) && BoardState() == old(BoardState())
      ensures flow == old(flow).(bombs := ApplyLevelEntries(old(flow).bombs, table.keys, table.vals))
    {
      var bombs := flow.bombs;
      var j := 0;
      while j < |table.keys|
        invariant 0 <= j <= |table.keys|
        invariant bombs == ApplyLevelEntries(flow.bombs, table.keys[..j], table.vals)
      {
        var bombType := table.keys[j];
        assert table.keys[..j + 1][..j] == table.keys[..j];
        if bombType in table.vals {
          var v := table.vals[bombType];
          if bombType in LevelManager.BaseBombKeys && v.Num? {
            bombs := Put(bombs, bombType, v.n);
          } else if !v.Num? {
            bombs := Put(bombs, bombType, 0);
          }
        }
        j := j + 1;
      }
      assert table.keys[..j] == table.keys;
      flow := flow.(bombs := bombs);
    }

    /**
     * setupBombs, with what the level manager reports: its bomb table (`None`
     * with no level manager) and its unlocked type.
     */
    method SetupBombs(levelBombs: Option<Dict<LevelValue>>, unlockedBomb: Option<string>)
      requires Valid() && OrderedMap.Valid(flow.bombs)
      modifies this
      ensures Valid() && gameStateManager == old(gameStateManager) && BoardState() == old(BoardState())
      ensures flow == GameRules.SetupBombs(old(flow), levelBombs, unlockedBomb)
    {
      ZeroBombCounts();
      if levelBombs.Some? {
        ApplyLevelBombs(levelBombs.value);
      } else {
        SetupFallbackBombs();
      }
      SelectInitialBombType(unlockedBomb);
    }

    /** The last step of setupBombs: the starting type, with one blast bomb when nothing is in stock. */
    method SelectInitialBombType(unlockedBomb: Option<string>)
      requires Valid()
      modifies this
      ensures Valid() && gameStateManager == old(gameStateManager) && BoardState() == old(BoardState())
      ensures flow == old(flow).(bombs := InitialType(old(flow).bombs, unlockedBomb).0,
                                 currentBombType := InitialType(old(flow).bombs, unlockedBomb).1)
    {
      if unlockedBomb.Some? && unlockedBomb.value in flow.bombs.vals && flow.bombs.vals[unlockedBomb.value] > 0 {
        flow := flow.(currentBombType := unlockedBomb.value);
      } else {
        var availableBombType := FirstPositive(flow.bombs);
        if availableBombType.Some? {
          flow := flow.(currentBombType := availableBombType.value);
        } else {
          flow := flow.(currentBombType := Blast, bombs := Put(flow.bombs, Blast, 1));
        }
      }
    }

    // ---------------------------------------------------------- progress and outcome

    /** _updateRevealProgress: one more block cleared, the voice feedback, and the completion check. */
    method UpdateRevealProgress()
      requires Valid()
      modifies this
      ensures Valid() && gameStateManager == old(gameStateManager) && BoardState() == old(BoardState())
      ensures flow == GameRules.UpdateReveal(old(flow))
    {
      var progress := flow.progress.(cleared := flow.progress.cleared + 1);
      progress := progress.(revealPercentage := RevealOf(progress.cleared, progress.total), score := progress.score + 10);
      flow := flow.(progress := progress);
      var percentageChange := flow.progress.revealPercentage - flow.progress.lastReveal;
      if percentageChange >= flow.progress.voiceThreshold {
        flow := flow.(events := flow.events + [if percentageChange >= 20 then SpecialClear(percentageChange) else VoiceMessage]);
        flow := flow.(progress := flow.progress.(lastReveal := flow.progress.revealPercentage));
      }
      if flow.progress.revealPercentage >= flow.progress.target {
        CheckLevelCompletion();
      }
    }

    /** checkLevelCompletion: a win starts the victory delay; running out of bombs checks game over. */
    method CheckLevelCompletion()
      requires Valid()
      modifies this
      ensures Valid() && gameStateManager == old(gameStateManager) && BoardState() == old(BoardState())
      ensures flow == GameRules.SceneCheckLevelCompletion(old(flow))
    {
      if flow.outcome.isLevelComplete || flow.outcome.isGameOver || flow.outcome.victoryDelay.Some? {
        return;
      }
      var allBombsUsed := !AnyPositive(flow.bombs);
      if allBombsUsed && flow.control.activeBomb {
        return;
      }
      if (allBombsUsed && flow.progress.revealPercentage >= flow.progress.target) || flow.progress.revealPercentage >= 100 {
        flow := flow.(outcome := flow.outcome.(victoryDelay := Some(Victory(flow.progress.level, Stars(flow.progress.revealPercentage),
                                                                          flow.progress.score, flow.progress.revealPercentage))));
      } else if allBombsUsed && flow.progress.revealPercentage < flow.progress.target {
        CheckGameOver();
      }
    }

    /** The victory delay's callback, five seconds after a win: shown unless the game ended meanwhile. */
    method VictoryDelayFires()
      requires Valid() && flow.outcome.victoryDelay.Some?
      modifies this
      ensures Valid() && gameStateManager == old(gameStateManager) && BoardState() == old(BoardState())
      ensures flow == GameRules.VictoryDelayEnds(old(flow))
    {
      var snapshot := flow.outcome.victoryDelay.value;
      flow := flow.(outcome := flow.outcome.(victoryDelay := None));
      if flow.outcome.isGameOver {
        return;
      }
      flow := flow.(outcome := flow.outcome.(isLevelComplete := true));
      flow := flow.(events := flow.events + [ShowVictoryScreen(snapshot)]);
    }

    /** checkGameOver: with no bombs left and the target missed the game is over, unless a bomb is still in flight. */
    method CheckGameOver()
      requires Valid()
      modifies this
      ensures Valid() && gameStateManager == old(gameStateManager) && BoardState() == old(BoardState())
      ensures flow == GameRules.SceneCheckGameOver(old(flow))
      decreases if flow.control.activeBomb then 3 else 1
    {
      if flow.outcome.isGameOver || flow.outcome.isLevelComplete {
        return;
      }
      flow := flow.(outcome := flow.outcome.(victoryDelay := None));
      var anyBombsAvailable := AnyPositive(flow.bombs);
      if !anyBombsAvailable && flow.control.activeBomb {
        gameStateManager.CheckGameOver();
        return;
      }
      if !anyBombsAvailable && flow.progress.revealPercentage < flow.progress.target {
        if flow.manager.waitingForLastBomb && flow.control.activeBomb {
          return;
        }
        flow := flow.(outcome := flow.outcome.(isGameOver := true, gameOverSetBy := Some(GameOverSetter)));
        flow := flow.(events := flow.events + [GameOverShown(flow.progress.revealPercentage, flow.progress.target, flow.progress.score)]);
        flow := flow.(control := flow.control.(bombStateActive := false, launcherStateActive := false));
      }
    }

    // ---------------------------------------------------------- blocks

    /** damageIceBlock: whether the block was destroyed. */
    method DamageIceBlock(id: int) returns (destroyed: bool)
      requires Valid()
      modifies this
      ensures Valid() && gameStateManager == old(gameStateManager)
      ensures (Snapshot(), destroyed) == DamageIce(old(Snapshot()), id)
    {
      if id !in blocks || !blocks[id].isActive {
        return false;
      }
      var block := blocks[id];
      if block.blockType == Eternal {
        return false;
      }
      blocks := blocks[id := block.(hitsLeft := block.hitsLeft - 1)];
      if block.hitsLeft - 1 <= 0 {
        DestroyIceBlock(this, id);
        return true;
      }
      return false;
    }

    /** cleanupIceBlocksArray: inactive blocks are dropped from the list, in order. */
    method CleanupIceBlocksArray()
      requires Valid()
      modifies this
      ensures Valid() && gameStateManager == old(gameStateManager) && flow == old(flow)
      ensures BoardState() == old(BoardState()).(iceBlocks := ActiveOnly(blocks, old(iceBlocks)))
    {
      var kept: seq<int> := [];
      for i := 0 to |iceBlocks|
        invariant kept == ActiveOnly(blocks, iceBlocks[..i])
      {
        assert iceBlocks[..i + 1][..i] == iceBlocks[..i];
        var id := iceBlocks[i];
        if id in blocks && blocks[id].isActive {
          kept := kept + [id];
        }
      }
      assert iceBlocks[..|iceBlocks|] == iceBlocks;
      iceBlocks := kept;
    }

    /** _createSingleBlock at (x, y) with the given type (`None` for a non-string). */
    method CreateSingleBlock(x: int, y: int, blockType: Option<string>)
      requires Valid()
      modifies this
      ensures Valid() && gameStateManager == old(gameStateManager)
      ensures Snapshot() == CreateBlock(old(Snapshot()), x, y, blockType)
    {
      var typeToUse := Standard;
      if blockType.Some? {
        var normalizedBlockType := LowerStr(blockType.value);
        if normalizedBlockType in Types {
          typeToUse := normalizedBlockType;
        }
      }
      var id := nextBlockId;
      blocks := blocks[id := IceBlock(x, y, typeToUse, true, GetHitPoints(typeToUse))];
      nextBlockId := id + 1;
      if typeToUse == Dynamite {
        dynamiteBlocks := dynamiteBlocks + [id];
      }
      iceBlocks := iceBlocks + [id];
      flow := flow.(progress := flow.progress.(total := flow.progress.total + 1));
    }

    // ---------------------------------------------------------- sticky and driller bombs

    /**
     * triggerStickyBomb: an explosion of `radius` at (x, y) sets off the live
     * sticky bombs and the finished driller bombs inside it. Both lists lose
     * the bombs set off and the dead records; `stuck` and `drilled` are the
     * bombs set off. Each driller set off explodes at once with a
     * destroyBlocksInRadius of DrillerBlastRadius at its position, whose
     * scheduled callbacks are `drillerBlasts`; each sticky bomb set off
     * arms a timer whose detonation is the matching entry of `stickyBlasts`.
     * The result is whether anything went off.
     */
    method TriggerStickyBomb(x: int, y: int, radius: int)
      returns (triggered: bool, stuck: seq<StickyBomb>, drilled: seq<DrillerData>, stickyBlasts: seq<Detonation>, drillerBlasts: seq<Lists>)
      requires Valid() && Distinct(activeStickyBombs) && Distinct(activeDrillerBombs)
      modifies this, set s | s in activeStickyBombs, set d | d in activeDrillerBombs
      ensures Valid() && gameStateManager == old(gameStateManager)
      ensures flow == old(flow) && BoardState() == old(BoardState())
      ensures activeStickyBombs == old(StickyKept(activeStickyBombs, x, y, radius))
      ensures activeDrillerBombs == old(DrillerKept(activeDrillerBombs, x, y, radius))
      ensures stuck == old(StickyTriggered(activeStickyBombs, x, y, radius))
      ensures drilled == old(DrillerTriggered(activeDrillerBombs, x, y, radius))
      ensures forall s :: s in old(activeStickyBombs) && old(StickyHit(s, x, y, radius)) ==>
                !s.isActive && s.x == old(s.x) && s.y == old(s.y) && s.spriteInScene == old(s.spriteInScene)
      ensures forall s :: s in old(activeStickyBombs) && !old(StickyHit(s, x, y, radius)) ==> unchanged(s)
      ensures forall d :: d in old(activeDrillerBombs) && old(DrillerHit(d, x, y, radius)) ==> DrillerSpent(d)
      ensures forall d :: d in old(activeDrillerBombs) && !old(DrillerHit(d, x, y, radius)) ==> unchanged(d)
      ensures triggered <==> |stuck| + |drilled| > 0
      ensures |stickyBlasts| == |stuck| &&
              forall k :: 0 <= k < |stuck| ==> stickyBlasts[k] == Detonation(stuck[k].x, stuck[k].y, StickyBlastRadius)
      ensures |drillerBlasts| == |drilled| &&
              forall k :: 0 <= k < |drilled| ==>
                drillerBlasts[k] == Categorize(blocks, iceBlocks, drilled[k].currentX, drilled[k].currentY, DrillerBlastRadius, false)
    {
      stuck, drilled := SetOffBombs(x, y, radius);
      // the forEach over the bombs set off: sticky bombs arm a delayed blast, drillers explode now
      stickyBlasts := StickyDetonations(stuck);
      drillerBlasts := DrillerExplosions(this, drilled);
      triggered := |stuck| + |drilled| > 0;
    }

    /** The two filters of triggerStickyBomb: the bombs set off leave the lists and are marked. */
    method SetOffBombs(x: int, y: int, radius: int) returns (stuck: seq<StickyBomb>, drilled: seq<DrillerData>)
      requires Valid() && Distinct(activeStickyBombs) && Distinct(activeDrillerBombs)
      modifies this, set s | s in activeStickyBombs, set d | d in activeDrillerBombs
      ensures Valid() && gameStateManager == old(gameStateManager)
      ensures flow == old(flow) && BoardState() == old(BoardState())
      ensures activeStickyBombs == old(StickyKept(activeStickyBombs, x, y, radius))
      ensures activeDrillerBombs == old(DrillerKept(activeDrillerBombs, x, y, radius))
      ensures stuck == old(StickyTriggered(activeStickyBombs, x, y, radius))
      ensures drilled == old(DrillerTriggered(activeDrillerBombs, x, y, radius))
      ensures forall s :: s in old(activeStickyBombs) && old(StickyHit(s, x, y, radius)) ==>
                !s.isActive && s.x == old(s.x) && s.y == old(s.y) && s.spriteInScene == old(s.spriteInScene)
      ensures forall s :: s in old(activeStickyBombs) && !old(StickyHit(s, x, y, radius)) ==> unchanged(s)
      ensures forall d :: d in old(activeDrillerBombs) && old(DrillerHit(d, x, y, radius)) ==> DrillerSpent(d)
      ensures forall d :: d in old(activeDrillerBombs) && !old(DrillerHit(d, x, y, radius)) ==> unchanged(d)
    {
      var stickies, drillers := activeStickyBombs, activeDrillerBombs;
      var keptStickies;
      keptStickies, stuck := FilterStickyBombs(stickies, x, y, radius);
      assert forall i :: 0 <= i < |drillers| ==> unchanged(drillers[i]);
      assert DrillerKept(drillers, x, y, radius) == old(DrillerKept(drillers, x, y, radius));
      assert DrillerTriggered(drillers, x, y, radius) == old(DrillerTriggered(drillers, x, y, radius));
      var keptDrillers';
      keptDrillers', drilled := FilterDrillerBombs(drillers, x, y, radius);
      activeStickyBombs, activeDrillerBombs := keptStickies, keptDrillers';
    }

    // ---------------------------------------------------------- other

    /** handleGoToNextLevel, with whether the UI scene is active. */
    method HandleGoToNextLevel(uiSceneActive: bool)
      requires Valid()
      modifies this
      ensures Valid() && gameStateManager == old(gameStateManager)
      ensures Snapshot() == GoToNextLevel(old(Snapshot()), uiSceneActive)
    {
      if isTransitioningLevel {
        return;
      }
      isTransitioningLevel := true;
      if !uiSceneActive {
        flow := flow.(events := flow.events + [StartCg(flow.progress.level, 1, flow.progress.score, flow.progress.revealPercentage)]);
      }
    }

    /** displayCongratulationText. */
    method DisplayCongratulationText(message: string)
      requires Valid()
      modifies this
      ensures Valid() && gameStateManager == old(gameStateManager)
      ensures Snapshot() == ShowCongratulation(old(Snapshot()), message)
    {
      congratulationText := Some(AudioManager.FormatCongratulation(message));
    }
  }
  // ------------------------------------------------------------ bomb utilities acting on the scene

  /** BombUtils.destroyIceBlock on the scene's block `id` (a missing id is a null block). */
  method DestroyIceBlock(scene: GameScene, id: int)
    requires scene.Valid()
    modifies scene
    ensures scene.Valid() && scene.gameStateManager == old(scene.gameStateManager)
    ensures scene.Snapshot() == DestroyIce(old(scene.Snapshot()), id)
  {
    if id !in scene.blocks {
      return;
    }
    var block := scene.blocks[id];
    scene.blocks := scene.blocks[id := block.(isActive := false)];
    if block.blockType == Dynamite {
      scene.dynamiteBlocks := Without(scene.dynamiteBlocks, id);
    }
    scene.UpdateRevealProgress();
  }

  /** destroyBlocksInRadius: the callbacks it schedules, sorted into the three lists. */
  method DestroyBlocksInRadius(scene: GameScene, x: int, y: int, radius: int) returns (scheduled: Lists)
    ensures scheduled == Categorize(scene.blocks, scene.iceBlocks, x, y, radius, false)
  {
    var toDestroy, toDamage, toTrigger := CategorizeBlocksByDistance(scene.blocks, scene.iceBlocks, x, y, radius, false);
    scheduled := Lists(toDestroy, toDamage, toTrigger);
  }

  /** destroyBlocksWithShatterer: the same, with strong and eternal blocks destroyed outright. */
  method DestroyBlocksWithShatterer(scene: GameScene, x: int, y: int, radius: int) returns (scheduled: Lists)
    ensures scheduled == Categorize(scene.blocks, scene.iceBlocks, x, y, radius, true)
  {
    var toDestroy, toDamage, toTrigger := CategorizeBlocksByDistance(scene.blocks, scene.iceBlocks, x, y, radius, true);
    scheduled := Lists(toDestroy, toDamage, toTrigger);
  }

  /** A scheduled destruction firing (_processBlockDestruction's callback, also the shatterer's and the melter's). */
  method ProcessBlockDestruction(scene: GameScene, id: int)
    requires scene.Valid()
    modifies scene
    ensures scene.Valid() && scene.gameStateManager == old(scene.gameStateManager)
    ensures scene.Snapshot() == FireDestroy(old(scene.Snapshot()), id)
  {
    if id in scene.blocks && scene.blocks[id].isActive {
      DestroyIceBlock(scene, id);
    }
  }

  /** A scheduled damage firing (_processBlockDamage's callback). */
  method ProcessBlockDamage(scene: GameScene, id: int)
    requires scene.Valid()
    modifies scene
    ensures scene.Valid() && scene.gameStateManager == old(scene.gameStateManager)
    ensures scene.Snapshot() == FireDamage(old(scene.Snapshot()), id)
  {
    if id in scene.blocks && scene.blocks[id].isActive {
      var _ := scene.DamageIceBlock(id);
    }
  }

  /** A scheduled dynamite trigger firing (_processDynamiteTriggers' callback), with the callbacks it schedules. */
  method ProcessDynamiteTrigger(scene: GameScene, id: int) returns (scheduled: Option<Lists>)
    requires scene.Valid()
    modifies scene
    ensures scene.Valid() && scene.gameStateManager == old(scene.gameStateManager)
    ensures (scene.Snapshot(), scheduled) == FireTrigger(old(scene.Snapshot()), id)
  {
    if id in scene.blocks && scene.blocks[id].isActive {
      var block := scene.blocks[id];
      DestroyIceBlock(scene, id);
      var next := DestroyBlocksInRadius(scene, block.x, block.y, DynamiteChainRadius);
      scheduled := Some(next);
    } else {
      scheduled := None;
    }
  }

  /** The timed blast each sticky bomb set off arms, in order. */
  method StickyDetonations(stuck: seq<StickyBomb>) returns (blasts: seq<Detonation>)
    ensures |blasts| == |stuck| &&
            forall k :: 0 <= k < |stuck| ==> blasts[k] == Detonation(stuck[k].x, stuck[k].y, StickyBlastRadius)
  {
    blasts := [];
    var k := 0;
    while k < |stuck|
      invariant 0 <= k <= |stuck| && |blasts| == k
      invariant forall m :: 0 <= m < k ==> blasts[m] == Detonation(stuck[m].x, stuck[m].y, StickyBlastRadius)
    {
      blasts := blasts + [Detonation(stuck[k].x, stuck[k].y, StickyBlastRadius)];
      k := k + 1;
    }
  }

  /** createDrillerExplosion for each driller set off, in order: the callbacks each destroyBlocksInRadius(x, y, 360) schedules. */
  method DrillerExplosions(scene: GameScene, drilled: seq<DrillerData>) returns (blasts: seq<Lists>)
    ensures |blasts| == |drilled| &&
            forall k :: 0 <= k < |drilled| ==>
              blasts[k] == Categorize(scene.blocks, scene.iceBlocks, drilled[k].currentX, drilled[k].currentY, DrillerBlastRadius, false)
  {
    blasts := [];
    var k := 0;
    while k < |drilled|
      invariant 0 <= k <= |drilled| && |blasts| == k
      invariant forall m :: 0 <= m < k ==>
                  blasts[m] == Categorize(scene.blocks, scene.iceBlocks, drilled[m].currentX, drilled[m].currentY, DrillerBlastRadius, false)
    {
      var lists := DestroyBlocksInRadius(scene, drilled[k].currentX, drilled[k].currentY, DrillerBlastRadius);
      blasts := blasts + [lists];
      k := k + 1;
    }
  }

  /** The explosion radius of a ricochet bomb, for blocks and for bombs it sets off. */
  const RicochetRadius := 150

  /** What explodeRicochetBomb schedules for 100 ms later. */
  datatype FollowUp = ResetBombLater | CheckCompletionLater

  /**
   * The explosion part of explodeRicochetBomb at (x, y): blocks within 150
   * are sorted for destruction, sticky and driller bombs within 150 are set
   * off (the drillers' blasts scheduled now, the sticky bombs' armed for
   * later), and the launcher's bomb state goes inactive.
   */
  method RicochetBlast(scene: GameScene, x: int, y: int) returns (scheduled: Lists, stickyBlasts: seq<Detonation>, drillerBlasts: seq<Lists>)
    requires scene.Valid() && Distinct(scene.activeStickyBombs) && Distinct(scene.activeDrillerBombs)
    modifies scene, set s | s in scene.activeStickyBombs, set d | d in scene.activeDrillerBombs
    ensures scene.Valid() && scene.gameStateManager == old(scene.gameStateManager) && scene.BoardState() == old(scene.BoardState())
    ensures scheduled == Categorize(old(scene.blocks), old(scene.iceBlocks), x, y, RicochetRadius, false)
    ensures scene.flow == old(scene.flow).(control := old(scene.flow).control.(launcherStateActive := false))
    ensures scene.activeStickyBombs == old(StickyKept(scene.activeStickyBombs, x, y, RicochetRadius))
    ensures scene.activeDrillerBombs == old(DrillerKept(scene.activeDrillerBombs, x, y, RicochetRadius))
    ensures BlastsOf(old(StickyPositions(StickyTriggered(scene.activeStickyBombs, x, y, RicochetRadius))), stickyBlasts)
    ensures DrillerBlastsOf(old(scene.blocks), old(scene.iceBlocks),
                            old(DrillerPositions(DrillerTriggered(scene.activeDrillerBombs, x, y, RicochetRadius))), drillerBlasts)
  {
    // destroyBlocksInRadius(x, y, 150) schedules exactly this
    scheduled := Categorize(scene.blocks, scene.iceBlocks, x, y, RicochetRadius, false);
    var _, stuck, drilled, sb, db := scene.TriggerStickyBomb(x, y, RicochetRadius);
    stickyBlasts, drillerBlasts := sb, db;
    scene.flow := scene.flow.(control := scene.flow.control.(launcherStateActive := false));
  }

  /**
   * explodeRicochetBomb on `bomb`, which is at (x, y). A missing bomb, one
   * that has left the scene, or one already exploded is ignored. Otherwise the
   * bomb is marked exploded before anything else and destroyed, the
   * explosion follows (RicochetBlast), and then a bomb reset (shots left) or
   * a completion check (none left) is scheduled.
   */
  method ExplodeRicochetBomb(scene: GameScene, bomb: LaunchedBomb?, x: int, y: int)
    returns (scheduled: Option<Lists>, followUp: Option<FollowUp>, stickyBlasts: seq<Detonation>, drillerBlasts: seq<Lists>)
    requires scene.Valid() && Distinct(scene.activeStickyBombs) && Distinct(scene.activeDrillerBombs)
    modifies scene, bomb, set s | s in scene.activeStickyBombs, set d | d in scene.activeDrillerBombs
    ensures scene.Valid() && scene.gameStateManager == old(scene.gameStateManager) && scene.BoardState() == old(scene.BoardState())
    ensures bomb == null || !old(bomb.inScene) || old(bomb.hasExploded) ==>
              scheduled.None? && followUp.None? && scene.flow == old(scene.flow) &&
              scene.activeStickyBombs == old(scene.activeStickyBombs) && scene.activeDrillerBombs == old(scene.activeDrillerBombs) &&
              (bomb != null ==> unchanged(bomb))
    ensures bomb != null && old(bomb.inScene) && !old(bomb.hasExploded) ==>
              bomb.hasExploded && !bomb.inScene &&
              scheduled == Some(Categorize(old(scene.blocks), old(scene.iceBlocks), x, y, RicochetRadius, false)) &&
              scene.flow == old(scene.flow).(control := old(scene.flow).control.(launcherStateActive := false)) &&
              scene.activeStickyBombs == old(StickyKept(scene.activeStickyBombs, x, y, RicochetRadius)) &&
              scene.activeDrillerBombs == old(DrillerKept(scene.activeDrillerBombs, x, y, RicochetRadius)) &&
              followUp == Some(if old(scene.flow).progress.shotsRemaining > 0 then ResetBombLater else CheckCompletionLater) &&
              BlastsOf(old(StickyPositions(StickyTriggered(scene.activeStickyBombs, x, y, RicochetRadius))), stickyBlasts) &&
              DrillerBlastsOf(old(scene.blocks), old(scene.iceBlocks),
                              old(DrillerPositions(DrillerTriggered(scene.activeDrillerBombs, x, y, RicochetRadius))), drillerBlasts)
    ensures bomb == null || !old(bomb.inScene) || old(bomb.hasExploded) ==> stickyBlasts == [] && drillerBlasts == []
  {
    if bomb == null || !bomb.inScene || bomb.hasExploded {
      return None, None, [], [];
    }
    var lists;
    lists, stickyBlasts, drillerBlasts := ExplodeLiveBomb(scene, bomb, x, y);
    scheduled := Some(lists);
    followUp := Some(if scene.flow.progress.shotsRemaining > 0 then ResetBombLater else CheckCompletionLater);
  }

  /** explodeRicochetBomb past its guard: the bomb is marked exploded and destroyed, then RicochetBlast. */
  method ExplodeLiveBomb(scene: GameScene, bomb: LaunchedBomb, x: int, y: int)
    returns (scheduled: Lists, stickyBlasts: seq<Detonation>, drillerBlasts: seq<Lists>)
    requires scene.Valid() && Distinct(scene.activeStickyBombs) && Distinct(scene.activeDrillerBombs)
    modifies scene, bomb, set s | s in scene.activeStickyBombs, set d | d in scene.activeDrillerBombs
    ensures scene.Valid() && scene.gameStateManager == old(scene.gameStateManager) && scene.BoardState() == old(scene.BoardState())
    ensures bomb.hasExploded && !bomb.inScene
    ensures scheduled == Categorize(old(scene.blocks), old(scene.iceBlocks), x, y, RicochetRadius, false)
    ensures scene.flow == old(scene.flow).(control := old(scene.flow).control.(launcherStateActive := false))
    ensures scene.activeStickyBombs == old(StickyKept(scene.activeStickyBombs, x, y, RicochetRadius))
    ensures scene.activeDrillerBombs == old(DrillerKept(scene.activeDrillerBombs, x, y, RicochetRadius))
    ensures BlastsOf(old(StickyPositions(StickyTriggered(scene.activeStickyBombs, x, y, RicochetRadius))), stickyBlasts)
    ensures DrillerBlastsOf(old(scene.blocks), old(scene.iceBlocks),
                            old(DrillerPositions(DrillerTriggered(scene.activeDrillerBombs, x, y, RicochetRadius))), drillerBlasts)
  {
    ghost var keptStickies := StickyKept(scene.activeStickyBombs, x, y, RicochetRadius);
    ghost var keptDrillers := DrillerKept(scene.activeDrillerBombs, x, y, RicochetRadius);
    ghost var stuckAt := StickyPositions(StickyTriggered(scene.activeStickyBombs, x, y, RicochetRadius));
    ghost var drilledAt := DrillerPositions(DrillerTriggered(scene.activeDrillerBombs, x, y, RicochetRadius));
    bomb.MarkExploded();
    assert StickyKept(scene.activeStickyBombs, x, y, RicochetRadius) == keptStickies;
    assert DrillerKept(scene.activeDrillerBombs, x, y, RicochetRadius) == keptDrillers;
    assert StickyPositions(StickyTriggered(scene.activeStickyBombs, x, y, RicochetRadius)) == stuckAt;
    assert DrillerPositions(DrillerTriggered(scene.activeDrillerBombs, x, y, RicochetRadius)) == drilledAt;
    scheduled, stickyBlasts, drillerBlasts := RicochetBlast(scene, x, y);
  }

  /** handleMelterBomb's choice of blocks to melt (each melt is a scheduled destruction). */
  method HandleMelterBomb(scene: GameScene, hit: Option<int>, x: int, y: int) returns (targets: Option<seq<int>>)
    ensures targets == MelterSelection(scene.blocks, scene.iceBlocks, hit, x, y)
  {
    var target := hit;
    var cx, cy := x, y;
    if !(hit.Some? && hit.value in scene.blocks && scene.blocks[hit.value].isActive) {
      target := FindClosestBlock(scene.blocks, scene.iceBlocks, x, y);
      if target.None? {
        return None;
      }
      cx, cy := scene.blocks[target.value].x, scene.blocks[target.value].y;
    }
    var all := [target.value] + SameTypeNear(scene.blocks, scene.iceBlocks, target.value, cx, cy);
    targets := Some(if |all| <= MaxBlocksToMelt then all else all[..MaxBlocksToMelt]);
  }
}
