/**
 * js/managers/BlockManager.js: the ice blocks of a level with their health,
 * the blue veils drawn over standard blocks, the dynamite list and the
 * cleared/total counters; plus the grid padding, the shuffle and the choice
 * of dynamite cells used when blocks are generated over an image.
 *
 * Game objects are records in an id-keyed map; the arrays of the source hold
 * ids. Block positions are integers, so distances are compared squared and
 * the veil match `|dx| < 0.1 && |dy| < 0.1` is equality of positions.
 */
module BlockManager {

  import opened Wrappers
  import BlockTypes

  type BlockId = nat

  /** `Infinity` for eternal blocks, otherwise a number of hits. */
  datatype Health = Finite(n: int) | Infinite

  datatype Block = Block(x: int, y: int, blockType: string, health: Health, destroyed: bool)

  datatype Veil = Veil(x: int, y: int)

  /** The fields of a BlockManager. */
  datatype Store = Store(
    blocks: map<BlockId, Block>,
    iceBlocks: seq<BlockId>,
    blueVeils: seq<Veil>,
    dynamiteBlocks: seq<BlockId>,
    totalBlocks: nat,
    clearedBlocks: nat)

  predicate Distinct<T(==)>(s: seq<T>)
  {
    forall i, j :: 0 <= i < j < |s| ==> s[i] != s[j]
  }

  /** Every listed block exists, and neither list holds a block twice. */
  predicate Valid(s: Store)
  {
    (forall k :: 0 <= k < |s.iceBlocks| ==> s.iceBlocks[k] in s.blocks) &&
    (forall k :: 0 <= k < |s.dynamiteBlocks| ==> s.dynamiteBlocks[k] in s.blocks) &&
    Distinct(s.iceBlocks) && Distinct(s.dynamiteBlocks)
  }

  /** getBlockHealth. */
  function GetBlockHealth(blockType: string): (h: Health)
    ensures h.Infinite? <==> blockType == BlockTypes.Eternal
  {
    if blockType == BlockTypes.Eternal then Infinite
    else if blockType == BlockTypes.Strong then Finite(3)
    else if blockType == BlockTypes.Dynamite then Finite(1)
    else if blockType == BlockTypes.Bouncy then Finite(2)
    else Finite(1)
  }

  /** `health -= damage` (Infinity minus a number is Infinity). */
  function Subtract(h: Health, damage: int): Health
  {
    match h
    case Finite(n) => Finite(n - damage)
    case Infinite => Infinite
  }

  predicate Depleted(h: Health)
  {
    h.Finite? && h.n <= 0
  }

  /** `indexOf` followed by `splice(index, 1)` when found. */
  function RemoveFirst<T(==)>(s: seq<T>, v: T): (r: seq<T>)
    ensures v !in s ==> r == s
    ensures v in s ==> |r| == |s| - 1
    ensures forall w :: w in r ==> w in s
    ensures forall w :: w in s && w != v ==> w in r
    ensures Distinct(s) ==> Distinct(r) && v !in r
  {
    if |s| == 0 then []
    else if s[0] == v then s[1..]
    else
      var rest := RemoveFirst(s[1..], v);
      assert Distinct(s) ==> s[0] !in s[1..] && Distinct(s[1..]);
      [s[0]] + rest
  }

  /** `_removeAssociatedVeil`: the first veil at the block's position is removed. */
  function RemoveVeilAt(veils: seq<Veil>, x: int, y: int): (r: seq<Veil>)
    ensures Veil(x, y) !in veils ==> r == veils
    ensures Veil(x, y) in veils ==> |r| == |veils| - 1
  {
    RemoveFirst(veils, Veil(x, y))
  }

  /** The blocks not yet destroyed. */
  function LiveSet(s: Store): set<BlockId>
  {
    set j | j in s.blocks && !s.blocks[j].destroyed
  }

  function Live(s: Store): nat
  {
    |LiveSet(s)|
  }

  /**
   * `r` comes from `s` by destroyBlock calls: the same blocks, each record
   * unchanged but for its destroyed flag, which is never cleared; the same
   * total; and one more cleared block for every block newly destroyed.
   */
  predicate Follows(s: Store, r: Store)
  {
    r.blocks.Keys == s.blocks.Keys &&
    (forall j :: j in s.blocks ==>
       r.blocks[j] == s.blocks[j].(destroyed := r.blocks[j].destroyed) &&
       (s.blocks[j].destroyed ==> r.blocks[j].destroyed)) &&
    r.totalBlocks == s.totalBlocks &&
    s.clearedBlocks <= r.clearedBlocks &&
    r.clearedBlocks + Live(r) == s.clearedBlocks + Live(s)
  }

  /** Marking a live block destroyed takes it out of the live set. */
  lemma LiveMark(s: Store, i: BlockId)
    requires i in s.blocks && !s.blocks[i].destroyed
    ensures Live(s.(blocks := s.blocks[i := s.blocks[i].(destroyed := true)])) == Live(s) - 1
  {
    var s1 := s.(blocks := s.blocks[i := s.blocks[i].(destroyed := true)]);
    assert LiveSet(s1) == LiveSet(s) - {i};
  }

  /** A store that follows another has no more live blocks. */
  lemma LiveNoMore(s: Store, r: Store)
    requires Follows(s, r)
    ensures Live(r) <= Live(s)
  {
  }

  lemma FollowsTrans(s: Store, m: Store, r: Store)
    requires Follows(s, m) && Follows(m, r)
    ensures Follows(s, r)
  {
  }

  /**
   * destroyBlock(block): a missing or already destroyed block is refused.
   * Otherwise the block is marked destroyed and its veil removed; a dynamite
   * block then explodes (_handleDynamiteDestruction, createDynamiteEffect):
   * destroyBlocksInRadius(x, y, 60) runs on the current blocks, and only then
   * leaves the dynamite list. Finally the block leaves iceBlocks and one more
   * block counts as cleared. Marking the block first is what ends the chain:
   * every nested call has one live block fewer.
   */
  function Destroy(s: Store, id: Option<BlockId>): (r: (Store, bool))
    requires id.Some? ==> id.value in s.blocks
    ensures Follows(s, r.0)
    ensures r.1 <==> id.Some? && !s.blocks[id.value].destroyed
    ensures id.Some? ==> r.0.blocks[id.value].destroyed
    decreases Live(s), 0, 0
  {
    if id.None? || s.blocks[id.value].destroyed then (s, false)
    else
      var i := id.value;
      var b := s.blocks[i];
      MarkLive(s, i);
      var s2 := Explode(Mark(s, i), b);
      FinishLive(s2, i, b.blockType == BlockTypes.Dynamite);
      (Finish(s2, i, b.blockType == BlockTypes.Dynamite), true)
  }

  /** `block.destroyed = true` and _removeAssociatedVeil. */
  function Mark(s: Store, i: BlockId): Store
    requires i in s.blocks
  {
    var b := s.blocks[i];
    s.(blocks := s.blocks[i := b.(destroyed := true)], blueVeils := RemoveVeilAt(s.blueVeils, b.x, b.y))
  }

  /** _handleDynamiteDestruction's createDynamiteEffect for a dynamite block `b`; nothing for any other. */
  function Explode(s1: Store, b: Block): (r: Store)
    ensures Follows(s1, r)
    decreases Live(s1), 3, 0
  {
    if b.blockType == BlockTypes.Dynamite then RadiusSweep(s1, s1.iceBlocks, b.x, b.y, DynamiteRadius) else s1
  }

  /** The rest of destroyBlock: the dynamite entry (for dynamite), the ice-block entry, the count. */
  function Finish(s2: Store, i: BlockId, dynamite: bool): Store
  {
    Store(s2.blocks, RemoveFirst(s2.iceBlocks, i), s2.blueVeils,
          if dynamite then RemoveFirst(s2.dynamiteBlocks, i) else s2.dynamiteBlocks,
          s2.totalBlocks, s2.clearedBlocks + 1)
  }

  lemma MarkLive(s: Store, i: BlockId)
    requires i in s.blocks && !s.blocks[i].destroyed
    ensures Live(Mark(s, i)) == Live(s) - 1
  {
    LiveMark(s, i);
    assert LiveSet(Mark(s, i)) == LiveSet(s.(blocks := s.blocks[i := s.blocks[i].(destroyed := true)]));
  }

  lemma FinishLive(s2: Store, i: BlockId, dynamite: bool)
    ensures Live(Finish(s2, i, dynamite)) == Live(s2)
  {
    assert LiveSet(Finish(s2, i, dynamite)) == LiveSet(s2);
  }

  /** The radius of a dynamite block's explosion (createDynamiteEffect). */
  const DynamiteRadius := 60

  /**
   * damageBlock(block, damage): missing, destroyed and eternal blocks are
   * refused; otherwise the damage is subtracted and the block is destroyed
   * once its health is at most 0.
   */
  function Damage(s: Store, id: Option<BlockId>, damage: int): (Store, bool)
    requires id.Some? ==> id.value in s.blocks
  {
    if id.None? || s.blocks[id.value].destroyed || s.blocks[id.value].blockType == BlockTypes.Eternal then (s, false)
    else
      var i := id.value;
      var b := s.blocks[i].(health := Subtract(s.blocks[i].health, damage));
      var s1 := s.(blocks := s.blocks[i := b]);
      if Depleted(b.health) then Destroy(s1, id) else (s1, false)
  }

  /** `Math.sqrt(dx * dx + dy * dy) <= radius`, compared squared. */
  predicate WithinRadius(b: Block, x: int, y: int, radius: int)
  {
    radius >= 0 && (b.x - x) * (b.x - x) + (b.y - y) * (b.y - y) <= radius * radius
  }

  /** Whether destroyBlocksInRadius destroys this (current) block. */
  predicate Hit(b: Block, x: int, y: int, radius: int)
  {
    !b.destroyed && WithinRadius(b, x, y, radius) && b.blockType != BlockTypes.Eternal
  }

  /** One iteration of the forEach in destroyBlocksInRadius (a missing id is a null entry). */
  function RadiusStep(s: Store, id: BlockId, x: int, y: int, radius: int): (r: Store)
    ensures Follows(s, r)
    decreases Live(s), 1, 0
  {
    if id in s.blocks && Hit(s.blocks[id], x, y, radius) then Destroy(s, Some(id)).0 else s
  }

  /** The forEach over a copy of iceBlocks, applied to the copy's elements in order. */
  function RadiusSweep(s: Store, copy: seq<BlockId>, x: int, y: int, radius: int): (r: Store)
    ensures Follows(s, r)
    decreases Live(s), 2, |copy|
  {
    if |copy| == 0 then s
    else
      var prev := RadiusSweep(s, copy[..|copy| - 1], x, y, radius);
      var r := RadiusStep(prev, copy[|copy| - 1], x, y, radius);
      FollowsTrans(s, prev, r);
      r
  }

  /** One more entry of the copy is one more RadiusStep, from a store with no more live blocks. */
  lemma SweepExtend(s: Store, copy: seq<BlockId>, i: nat, x: int, y: int, radius: int)
    requires i < |copy|
    ensures RadiusSweep(s, copy[..i + 1], x, y, radius) == RadiusStep(RadiusSweep(s, copy[..i], x, y, radius), copy[i], x, y, radius)
    ensures Live(RadiusSweep(s, copy[..i], x, y, radius)) <= Live(s)
  {
    assert copy[..i + 1][..i] == copy[..i];
    LiveNoMore(s, RadiusSweep(s, copy[..i], x, y, radius));
  }

  /** getRevealPercentage: 0 with no blocks, else the floor of the cleared share in percent. */
  function RevealPercentage(s: Store): int
  {
    if s.totalBlocks == 0 then 0 else (s.clearedBlocks * 100) / s.totalBlocks
  }

  /** clearBlocks: every list emptied and both counters zeroed. */
  function Cleared(s: Store): Store
  {
    Store(s.blocks, [], [], [], 0, 0)
  }

  class BlockManager {
    var blocks: map<BlockId, Block>
    var iceBlocks: seq<BlockId>
    var blueVeils: seq<Veil>
    var dynamiteBlocks: seq<BlockId>
    var totalBlocks: nat
    var clearedBlocks: nat

    function State(): Store
      reads this
    {
      Store(blocks, iceBlocks, blueVeils, dynamiteBlocks, totalBlocks, clearedBlocks)
    }

    constructor ()
      ensures State() == Store(map[], [], [], [], 0, 0)
    {
      blocks := map[];
      iceBlocks := [];
      blueVeils := [];
      dynamiteBlocks := [];
      totalBlocks := 0;
      clearedBlocks := 0;
    }

    /** destroyBlock(block), with the explosion of a dynamite block. */
    method DestroyBlock(id: Option<BlockId>) returns (ok: bool)
      requires id.Some? ==> id.value in blocks
      modifies this
      ensures (State(), ok) == Destroy(old(State()), id)
      decreases Live(State()), 0
    {
      if id.None? || blocks[id.value].destroyed {
        return false;
      }
      var i := id.value;
      var b := blocks[i];
      ghost var s := State();
      blocks := blocks[i := b.(destroyed := true)];
      blueVeils := RemoveVeilAt(blueVeils, b.x, b.y);
      assert State() == Mark(s, i);
      MarkLive(s, i);
      if b.blockType == BlockTypes.Dynamite {
        // _handleDynamiteDestruction: createDynamiteEffect, then the dynamite list
        DestroyBlocksInRadius(b.x, b.y, DynamiteRadius);
        dynamiteBlocks := RemoveFirst(dynamiteBlocks, i);
      }
      ghost var s2 := Explode(Mark(s, i), b);
      assert State() == s2.(dynamiteBlocks := Finish(s2, i, b.blockType == BlockTypes.Dynamite).dynamiteBlocks);
      iceBlocks := RemoveFirst(iceBlocks, i);
      clearedBlocks := clearedBlocks + 1;
      ok := true;
      assert State() == Finish(s2, i, b.blockType == BlockTypes.Dynamite);
    }

    /** damageBlock(block, damage). */
    method DamageBlock(id: Option<BlockId>, damage: int) returns (destroyed: bool)
      requires id.Some? ==> id.value in blocks
      modifies this
      ensures (State(), destroyed) == Damage(old(State()), id, damage)
    {
      if id.None? || blocks[id.value].destroyed {
        return false;
      }
      var i := id.value;
      if blocks[i].blockType == BlockTypes.Eternal {
        return false;
      }
      blocks := blocks[i := blocks[i].(health := Subtract(blocks[i].health, damage))];
      if Depleted(blocks[i].health) {
        destroyed := DestroyBlock(id);
      } else {
        destroyed := false;
      }
    }

    /** destroyBlocksInRadius(x, y, radius): iterates over a copy of iceBlocks. */
    method DestroyBlocksInRadius(x: int, y: int, radius: int)
      modifies this
      ensures State() == RadiusSweep(old(State()), old(iceBlocks), x, y, radius)
      decreases Live(State()), 2
    {
      var copy := iceBlocks;
      ghost var s0 := State();
      var i := 0;
      while i < |copy|
        invariant 0 <= i <= |copy|
        invariant State() == RadiusSweep(s0, copy[..i], x, y, radius)
      {
        SweepExtend(s0, copy, i, x, y, radius);
        SweepStep(copy[i], x, y, radius);
        i := i + 1;
      }
      assert copy[..i] == copy;
    }

    /** The forEach callback of destroyBlocksInRadius on one entry of the copy. */
    method SweepStep(id: BlockId, x: int, y: int, radius: int)
      modifies this
      ensures State() == RadiusStep(old(State()), id, x, y, radius)
      decreases Live(State()), 1
    {
      if id in blocks && !blocks[id].destroyed && WithinRadius(blocks[id], x, y, radius) && blocks[id].blockType != BlockTypes.Eternal {
        var _ := DestroyBlock(Some(id));
      }
    }

    /** getRevealPercentage. */
    function GetRevealPercentage(): (p: int)
      reads this
      ensures p == RevealPercentage(State())
    {
      if totalBlocks == 0 then 0 else (clearedBlocks * 100) / totalBlocks
    }

    /** clearBlocks (and cleanup, which only calls it). */
    method ClearBlocks()
      modifies this
      ensures State() == Cleared(old(State()))
    {
      iceBlocks := [];
      blueVeils := [];
      dynamiteBlocks := [];
      totalBlocks := 0;
      clearedBlocks := 0;
    }
  }

  /** The table of initial health: eternal is unbounded, strong 3, bouncy 2, dynamite and every other type 1. */
  lemma HealthTable(t: string)
    ensures GetBlockHealth(BlockTypes.Eternal) == Infinite
    ensures GetBlockHealth(BlockTypes.Strong) == Finite(3) && GetBlockHealth(BlockTypes.Bouncy) == Finite(2)
    ensures GetBlockHealth(BlockTypes.Dynamite) == Finite(1) && GetBlockHealth(BlockTypes.Standard) == Finite(1)
    ensures t != BlockTypes.Eternal ==> GetBlockHealth(t).Finite? && 1 <= GetBlockHealth(t).n <= 3
  {
  }

  /** A refused damage (no block, destroyed or eternal) returns false and changes nothing. */
  lemma DamageRefused(s: Store, id: Option<BlockId>, damage: int)
    requires id.Some? ==> id.value in s.blocks
    requires id.None? || s.blocks[id.value].destroyed || s.blocks[id.value].blockType == BlockTypes.Eternal
    ensures Damage(s, id, damage) == (s, false)
  {
  }

  /**
   * Otherwise the health drops by exactly `damage`, and the result is true
   * exactly when the new health is at most 0, in which case the block is
   * destroyed. Every block destroyed along the way counts as cleared; when
   * the damaged block is not dynamite, that is it alone.
   */
  lemma DamageApplied(s: Store, i: BlockId, damage: int)
    requires i in s.blocks && !s.blocks[i].destroyed && s.blocks[i].blockType != BlockTypes.Eternal
    ensures var (r, ok) := Damage(s, Some(i), damage);
            var h := Subtract(s.blocks[i].health, damage);
            r.blocks[i].health == h &&
            (ok <==> Depleted(h)) &&
            r.blocks[i].destroyed == ok &&
            (!ok ==> r == s.(blocks := s.blocks[i := s.blocks[i].(health := h)])) &&
            r.clearedBlocks == s.clearedBlocks + (Live(s) - Live(r)) &&
            (s.blocks[i].blockType != BlockTypes.Dynamite ==> r.clearedBlocks == s.clearedBlocks + (if ok then 1 else 0))
    ensures s.blocks[i].health.Finite? ==> Subtract(s.blocks[i].health, damage).n == s.blocks[i].health.n - damage
  {
    var h := Subtract(s.blocks[i].health, damage);
    var s1 := s.(blocks := s.blocks[i := s.blocks[i].(health := h)]);
    assert LiveSet(s1) == LiveSet(s);
    if Depleted(h) && s.blocks[i].blockType != BlockTypes.Dynamite {
      DestroyPlain(s1, i);
    }
  }

  /** Whether block `j` was live in `s` and is destroyed in `r`. */
  predicate Newly(s: Store, r: Store, j: BlockId)
  {
    j in s.blocks && j in r.blocks && !s.blocks[j].destroyed && r.blocks[j].destroyed
  }

  /**
   * The lists of `r` are those of `s` without the blocks newly destroyed
   * (only dynamite blocks leave the dynamite list).
   */
  ghost predicate ListsFollow(s: Store, r: Store)
  {
    (forall j :: j in r.iceBlocks <==> j in s.iceBlocks && !Newly(s, r, j)) &&
    (forall j :: j in r.dynamiteBlocks <==>
       j in s.dynamiteBlocks && !(Newly(s, r, j) && s.blocks[j].blockType == BlockTypes.Dynamite))
  }

  lemma ListsTrans(s: Store, m: Store, r: Store)
    requires Follows(s, m) && Follows(m, r) && ListsFollow(s, m) && ListsFollow(m, r)
    ensures ListsFollow(s, r)
    ensures forall j :: Newly(s, r, j) <==> Newly(s, m, j) || Newly(m, r, j)
  {
    assert forall j :: Newly(s, r, j) <==> Newly(s, m, j) || Newly(m, r, j);
    assert forall j :: Newly(m, r, j) ==> m.blocks[j].blockType == s.blocks[j].blockType;
  }

  /** A block that is not dynamite is destroyed alone: only its own record changes. */
  lemma DestroyPlain(s: Store, i: BlockId)
    requires i in s.blocks && !s.blocks[i].destroyed && s.blocks[i].blockType != BlockTypes.Dynamite
    ensures var r := Destroy(s, Some(i)).0;
            r.blocks == s.blocks[i := s.blocks[i].(destroyed := true)] &&
            r.iceBlocks == RemoveFirst(s.iceBlocks, i) && r.dynamiteBlocks == s.dynamiteBlocks &&
            r.clearedBlocks == s.clearedBlocks + 1 && r.totalBlocks == s.totalBlocks
  {
  }

  /** Marking keeps the lists and destroys only the block itself. */
  lemma MarkFacts(s: Store, i: BlockId)
    requires Valid(s) && i in s.blocks && !s.blocks[i].destroyed
    ensures var s1 := Mark(s, i);
            Valid(s1) && s1.iceBlocks == s.iceBlocks && s1.dynamiteBlocks == s.dynamiteBlocks &&
            s1.blocks.Keys == s.blocks.Keys && s1.blocks[i].destroyed &&
            (forall j :: j in s.blocks && j != i ==> s1.blocks[j] == s.blocks[j]) &&
            (forall j :: j in s.blocks ==> s1.blocks[j].blockType == s.blocks[j].blockType)
  {
  }

  /** The last steps remove the block from the lists, once. */
  lemma FinishFacts(s2: Store, i: BlockId, dynamite: bool)
    requires Valid(s2) && i in s2.blocks
    ensures var r := Finish(s2, i, dynamite);
            Valid(r) && r.blocks == s2.blocks &&
            (forall j :: j in r.iceBlocks <==> j in s2.iceBlocks && j != i) &&
            (forall j :: j in r.dynamiteBlocks <==> j in s2.dynamiteBlocks && !(dynamite && j == i))
  {
    var r := Finish(s2, i, dynamite);
    forall k | 0 <= k < |r.iceBlocks|
      ensures r.iceBlocks[k] in r.blocks
    {
      assert r.iceBlocks[k] in s2.iceBlocks;
    }
    forall k | 0 <= k < |r.dynamiteBlocks|
      ensures r.dynamiteBlocks[k] in r.blocks
    {
      assert r.dynamiteBlocks[k] in s2.dynamiteBlocks;
    }
  }

  /**
   * destroyBlock on a live block keeps the store valid, removes exactly the
   * newly destroyed blocks from the lists, and destroys only the block
   * itself and blocks listed in iceBlocks.
   */
  lemma {:induction false} DestroyLists(s: Store, i: BlockId)
    requires Valid(s) && i in s.blocks
    ensures var r := Destroy(s, Some(i)).0;
            Valid(r) && ListsFollow(s, r) && (forall j :: Newly(s, r, j) ==> j == i || j in s.iceBlocks)
    decreases Live(s), 0, 0
  {
    if !s.blocks[i].destroyed {
      var b := s.blocks[i];
      var dyn := b.blockType == BlockTypes.Dynamite;
      var s1 := Mark(s, i);
      MarkFacts(s, i);
      MarkLive(s, i);
      var s2 := Explode(s1, b);
      if dyn {
        SweepLists(s1, s1.iceBlocks, b.x, b.y, DynamiteRadius);
      } else {
        assert s2 == s1;
      }
      assert Valid(s2) && ListsFollow(s1, s2);
      var r := Finish(s2, i, dyn);
      FinishFacts(s2, i, dyn);
      assert Destroy(s, Some(i)).0 == r;
      forall j
        ensures Newly(s, r, j) <==> j == i || Newly(s1, s2, j)
        ensures j in r.iceBlocks <==> j in s.iceBlocks && !Newly(s, r, j)
        ensures j in r.dynamiteBlocks <==>
                  j in s.dynamiteBlocks && !(Newly(s, r, j) && s.blocks[j].blockType == BlockTypes.Dynamite)
        ensures Newly(s, r, j) ==> j == i || j in s.iceBlocks
      {
        if j == i {
          assert Newly(s, r, j);
        } else if j in s.blocks {
          assert s1.blocks[j] == s.blocks[j];
        }
      }
    }
  }

  /** One step of the sweep: a block reached is destroyed, with whatever destroyBlock entails. */
  lemma {:induction false} StepLists(s: Store, id: BlockId, x: int, y: int, radius: int)
    requires Valid(s)
    ensures var r := RadiusStep(s, id, x, y, radius);
            Valid(r) && ListsFollow(s, r) &&
            (forall j :: Newly(s, r, j) ==> j == id || j in s.iceBlocks)
    decreases Live(s), 1, 0
  {
    if id in s.blocks && Hit(s.blocks[id], x, y, radius) {
      DestroyLists(s, id);
    }
  }

  /**
   * destroyBlocksInRadius keeps the store valid, removes exactly the newly
   * destroyed blocks from the lists, and destroys only blocks of the copy or
   * of iceBlocks (those a dynamite block's explosion reaches).
   */
  lemma {:induction false} SweepLists(s: Store, copy: seq<BlockId>, x: int, y: int, radius: int)
    requires Valid(s)
    ensures var r := RadiusSweep(s, copy, x, y, radius);
            Valid(r) && ListsFollow(s, r) &&
            (forall j :: Newly(s, r, j) ==> j in copy || j in s.iceBlocks)
    decreases Live(s), 2, |copy|
  {
    if |copy| > 0 {
      var init, last := copy[..|copy| - 1], copy[|copy| - 1];
      var prev := RadiusSweep(s, init, x, y, radius);
      SweepLists(s, init, x, y, radius);
      var r := RadiusStep(prev, last, x, y, radius);
      assert RadiusSweep(s, copy, x, y, radius) == r;
      LiveNoMore(s, prev);
      StepLists(prev, last, x, y, radius);
      assert copy == init + [last];
      SweepCompose(s, prev, r, init, last);
    }
  }

  /** Gluing the sweep of a prefix to the step on the last entry. */
  lemma SweepCompose(s: Store, prev: Store, r: Store, init: seq<BlockId>, last: BlockId)
    requires Follows(s, prev) && Follows(prev, r) && ListsFollow(s, prev) && ListsFollow(prev, r)
    requires forall j :: Newly(s, prev, j) ==> j in init || j in s.iceBlocks
    requires forall j :: Newly(prev, r, j) ==> j == last || j in prev.iceBlocks
    ensures ListsFollow(s, r)
    ensures forall j :: Newly(s, r, j) ==> j in init + [last] || j in s.iceBlocks
  {
    ListsTrans(s, prev, r);
  }

  /** destroyBlocksInRadius destroys every block of the copy it reaches. */
  lemma {:induction false} SweepReaches(s: Store, copy: seq<BlockId>, x: int, y: int, radius: int, j: BlockId)
    requires j in copy && j in s.blocks && Hit(s.blocks[j], x, y, radius)
    ensures RadiusSweep(s, copy, x, y, radius).blocks[j].destroyed
    decreases |copy|
  {
    var init, last := copy[..|copy| - 1], copy[|copy| - 1];
    assert copy == init + [last];
    var prev := RadiusSweep(s, init, x, y, radius);
    if j != last {
      assert j in init;
      SweepReaches(s, init, x, y, radius, j);
    } else if !prev.blocks[last].destroyed {
      assert prev.blocks[last] == s.blocks[last];
    }
  }

  /**
   * The first destroyBlock marks the block destroyed, removes it and exactly
   * the other blocks it destroys from iceBlocks, changes no record but for
   * destroyed flags, destroys no block outside iceBlocks, and counts every
   * block it destroys, itself included, as cleared. A block that is not
   * dynamite is destroyed alone.
   */
  lemma DestroyEffect(s: Store, i: BlockId)
    requires Valid(s) && i in s.blocks && !s.blocks[i].destroyed
    ensures var (r, ok) := Destroy(s, Some(i));
            ok && Valid(r) && r.blocks[i].destroyed &&
            i !in r.iceBlocks &&
            (forall j :: j in r.iceBlocks <==> j in s.iceBlocks && !Newly(s, r, j)) &&
            (forall j :: Newly(s, r, j) ==> j == i || j in s.iceBlocks) &&
            (forall j :: j in s.blocks ==> r.blocks[j] == s.blocks[j].(destroyed := r.blocks[j].destroyed)) &&
            r.clearedBlocks == s.clearedBlocks + (Live(s) - Live(r)) && Live(r) < Live(s) &&
            r.totalBlocks == s.totalBlocks &&
            (s.blocks[i].blockType != BlockTypes.Dynamite ==>
               r.dynamiteBlocks == s.dynamiteBlocks && r.clearedBlocks == s.clearedBlocks + 1 &&
               r.blocks == s.blocks[i := s.blocks[i].(destroyed := true)] &&
               (forall j :: j in s.iceBlocks && j != i <==> j in r.iceBlocks))
  {
    var b := s.blocks[i];
    var r := Destroy(s, Some(i)).0;
    DestroyLists(s, i);
    assert Newly(s, r, i);
    var s2 := Explode(Mark(s, i), b);
    assert r == Finish(s2, i, b.blockType == BlockTypes.Dynamite);
    if b.blockType != BlockTypes.Dynamite {
      DestroyPlain(s, i);
    }
  }

  /**
   * A dynamite block explodes when destroyed: it leaves the dynamite list,
   * and every live, non-eternal block of iceBlocks within 60 of it is
   * destroyed too (and, through their own explosions, what they reach).
   */
  lemma DynamiteChains(s: Store, i: BlockId)
    requires Valid(s) && i in s.blocks && !s.blocks[i].destroyed && s.blocks[i].blockType == BlockTypes.Dynamite
    ensures var r := Destroy(s, Some(i)).0;
            var b := s.blocks[i];
            i !in r.dynamiteBlocks &&
            forall j :: j in s.iceBlocks && Hit(s.blocks[j], b.x, b.y, DynamiteRadius) ==> r.blocks[j].destroyed
  {
    var b := s.blocks[i];
    var r := Destroy(s, Some(i)).0;
    DestroyLists(s, i);
    assert Newly(s, r, i);
    var s1 := Mark(s, i);
    MarkFacts(s, i);
    assert r.blocks == Explode(s1, b).blocks;
    forall j | j in s.iceBlocks && Hit(s.blocks[j], b.x, b.y, DynamiteRadius)
      ensures r.blocks[j].destroyed
    {
      if j != i {
        SweepReaches(s1, s1.iceBlocks, b.x, b.y, DynamiteRadius, j);
      }
    }
  }

  /**
   * The case of a dynamite block at (0, 0) beside a standard block at
   * (30, 0): destroying the dynamite destroys both and clears 2.
   */
  lemma DynamiteChainsToNeighbour()
    ensures var s := Store(map[0 := Block(0, 0, BlockTypes.Dynamite, Finite(1), false),
                               1 := Block(30, 0, BlockTypes.Standard, Finite(1), false)],
                           [0, 1], [], [0], 2, 0);
            var (r, ok) := Destroy(s, Some(0));
            ok && r.blocks[0].destroyed && r.blocks[1].destroyed && r.clearedBlocks == 2 &&
            0 !in r.iceBlocks && 1 !in r.iceBlocks
  {
    var s := Store(map[0 := Block(0, 0, BlockTypes.Dynamite, Finite(1), false),
                       1 := Block(30, 0, BlockTypes.Standard, Finite(1), false)],
                   [0, 1], [], [0], 2, 0);
    assert Valid(s);
    DestroyEffect(s, 0);
    assert Hit(s.blocks[1], 0, 0, DynamiteRadius);
    DynamiteChains(s, 0);
    var r := Destroy(s, Some(0)).0;
    assert LiveSet(s) == {0, 1};
    assert LiveSet(r) == {};
    assert Newly(s, r, 0) && Newly(s, r, 1);
  }

  /** A block is destroyed only once: a second destroyBlock returns false and changes nothing. */
  lemma DestroyOnce(s: Store, i: BlockId)
    requires i in s.blocks
    ensures var (r, _) := Destroy(s, Some(i));
            Destroy(r, Some(i)) == (r, false)
  {
  }

  /** No block the sweep reaches is dynamite, so nothing chains. */
  predicate NoDynamiteReached(s: Store, copy: seq<BlockId>, x: int, y: int, radius: int)
  {
    forall k :: 0 <= k < |copy| && copy[k] in s.blocks && Hit(s.blocks[copy[k]], x, y, radius) ==>
      s.blocks[copy[k]].blockType != BlockTypes.Dynamite
  }

  /**
   * destroyBlocksInRadius changes no block but for its destroyed flag, and
   * destroys every block of the copied list that was neither destroyed nor
   * eternal and lay within the radius. When none of those is dynamite it
   * destroys exactly them; otherwise the explosions may destroy more.
   */
  lemma RadiusSweepExact(s: Store, copy: seq<BlockId>, x: int, y: int, radius: int, j: BlockId)
    requires j in s.blocks
    ensures var r := RadiusSweep(s, copy, x, y, radius);
            r.blocks[j] == s.blocks[j].(destroyed := r.blocks[j].destroyed) &&
            (s.blocks[j].destroyed || (j in copy && Hit(s.blocks[j], x, y, radius)) ==> r.blocks[j].destroyed) &&
            (NoDynamiteReached(s, copy, x, y, radius) ==>
               (r.blocks[j].destroyed <==> s.blocks[j].destroyed || (j in copy && Hit(s.blocks[j], x, y, radius))))
  {
    if j in copy && Hit(s.blocks[j], x, y, radius) {
      SweepReaches(s, copy, x, y, radius, j);
    }
    if NoDynamiteReached(s, copy, x, y, radius) {
      SweepNoChain(s, copy, x, y, radius, j);
    }
  }

  /** Without dynamite in reach, only reached blocks of the copy are destroyed. */
  lemma {:induction false} SweepNoChain(s: Store, copy: seq<BlockId>, x: int, y: int, radius: int, j: BlockId)
    requires j in s.blocks && NoDynamiteReached(s, copy, x, y, radius)
    ensures RadiusSweep(s, copy, x, y, radius).blocks[j].destroyed ==>
              s.blocks[j].destroyed || (j in copy && Hit(s.blocks[j], x, y, radius))
    decreases |copy|
  {
    if |copy| > 0 {
      var init, last := copy[..|copy| - 1], copy[|copy| - 1];
      assert copy == init + [last];
      assert NoDynamiteReached(s, init, x, y, radius) by {
        forall k | 0 <= k < |init| ensures init[k] == copy[k] { }
      }
      SweepNoChain(s, init, x, y, radius, j);
      var prev := RadiusSweep(s, init, x, y, radius);
      var r := RadiusStep(prev, last, x, y, radius);
      assert RadiusSweep(s, copy, x, y, radius) == r;
      if last in prev.blocks && Hit(prev.blocks[last], x, y, radius) {
        assert prev.blocks[last] == s.blocks[last];
        assert s.blocks[copy[|copy| - 1]].blockType != BlockTypes.Dynamite;
        DestroyPlain(prev, last);
        assert r.blocks == prev.blocks[last := prev.blocks[last].(destroyed := true)];
      } else {
        assert r == prev;
      }
    }
  }

  /** The reveal percentage is the floor of cleared/total in percent: within [0, 100] while cleared <= total. */
  lemma RevealBounds(s: Store)
    requires s.totalBlocks > 0
    ensures var p := RevealPercentage(s);
            p * s.totalBlocks <= s.clearedBlocks * 100 < (p + 1) * s.totalBlocks
    ensures s.clearedBlocks <= s.totalBlocks ==> 0 <= RevealPercentage(s) <= 100
    ensures s.clearedBlocks == s.totalBlocks ==> RevealPercentage(s) == 100
  {
    FloorDiv(s.clearedBlocks * 100, s.totalBlocks);
    if s.clearedBlocks <= s.totalBlocks {
      DivAtMost(s.clearedBlocks, s.totalBlocks);
    }
  }

  lemma FloorDiv(c: nat, t: int)
    requires t > 0
    ensures 0 <= c / t
    ensures (c / t) * t <= c < (c / t + 1) * t
  {
    assert c == (c / t) * t + c % t;
    assert (c / t + 1) * t == (c / t) * t + t;
  }

  lemma DivAtMost(a: nat, t: int)
    requires 0 < t && a <= t
    ensures (a * 100) / t <= 100
    ensures a == t ==> (a * 100) / t == 100
  {
    var p := (a * 100) / t;
    FloorDiv(a * 100, t);
    MulMonotone(a, t, 100);
    if p > 100 {
      MulMonotone(101, p, t);
    }
    if a == t {
      assert p * t <= 100 * t < (p + 1) * t;
      if p < 100 {
        MulMonotone(p + 1, 100, t);
      }
    }
  }

  lemma MulMonotone(a: int, b: int, t: int)
    requires a <= b && t > 0
    ensures a * t <= b * t
  {
    assert b * t == a * t + (b - a) * t;
  }

  /** After clearBlocks nothing is listed, nothing counted, and the reveal is 0. */
  lemma ClearedEmpty(s: Store)
    ensures var r := Cleared(s);
            Valid(r) && r.iceBlocks == [] && r.blueVeils == [] && r.dynamiteBlocks == [] &&
            r.totalBlocks == 0 && r.clearedBlocks == 0 && RevealPercentage(r) == 0
  {
  }

  // ----- Generation helpers: grid padding, shuffle, dynamite cells -----

  /** Cell (pr, pc) is within one row and one column of (r, c). */
  predicate Adjacent(r: int, c: int, pr: int, pc: int)
  {
    -1 <= pr - r <= 1 && -1 <= pc - c <= 1
  }

  /** (pr, pc) comes before (row, col) in row-major order. */
  predicate Before(pr: int, pc: int, row: int, col: int)
  {
    pr < row || (pr == row && pc < col)
  }

  /** Some true cell of `g` that comes before (row, col) is adjacent to (r, c). */
  ghost predicate CoveredBefore(g: array2<bool>, r: int, c: int, row: int, col: int)
    reads g
  {
    exists pr, pc :: 0 <= pr < g.Length0 && 0 <= pc < g.Length1 && Before(pr, pc, row, col) &&
                     Adjacent(r, c, pr, pc) && g[pr, pc]
  }

  /** The 3x3 stamp of `_addPaddingToGrid` around one cell, clipped to the grid. */
  method Stamp(grid: array2<bool>, row: int, col: int)
    modifies grid
    ensures forall r, c :: 0 <= r < grid.Length0 && 0 <= c < grid.Length1 ==>
              grid[r, c] == (old(grid[r, c]) || Adjacent(r, c, row, col))
  {
    var pr := -1;
    while pr <= 1
      invariant -1 <= pr <= 2
      invariant forall r, c :: 0 <= r < grid.Length0 && 0 <= c < grid.Length1 ==>
                  grid[r, c] == (old(grid[r, c]) || (Adjacent(r, c, row, col) && pr + row > r))
    {
      var pc := -1;
      while pc <= 1
        invariant -1 <= pc <= 2
        invariant forall r, c :: 0 <= r < grid.Length0 && 0 <= c < grid.Length1 ==>
                    grid[r, c] == (old(grid[r, c]) ||
                                   (Adjacent(r, c, row, col) && (pr + row > r || (pr + row == r && pc + col > c))))
      {
        var padRow, padCol := row + pr, col + pc;
        if 0 <= padRow < grid.Length0 && 0 <= padCol < grid.Length1 {
          grid[padRow, padCol] := true;
        }
        pc := pc + 1;
      }
      pr := pr + 1;
    }
  }

  lemma CoverStep(g: array2<bool>, r: int, c: int, row: int, col: int)
    requires 0 <= row < g.Length0 && 0 <= col < g.Length1
    ensures CoveredBefore(g, r, c, row, col + 1) <==>
            CoveredBefore(g, r, c, row, col) || (g[row, col] && Adjacent(r, c, row, col))
  {
    if CoveredBefore(g, r, c, row, col + 1) {
      var pr, pc :| 0 <= pr < g.Length0 && 0 <= pc < g.Length1 && Before(pr, pc, row, col + 1) &&
                    Adjacent(r, c, pr, pc) && g[pr, pc];
      if !(pr == row && pc == col) {
        assert Before(pr, pc, row, col);
      }
    }
    if g[row, col] && Adjacent(r, c, row, col) {
      assert Before(row, col, row, col + 1);
    }
    if CoveredBefore(g, r, c, row, col) {
      var pr, pc :| 0 <= pr < g.Length0 && 0 <= pc < g.Length1 && Before(pr, pc, row, col) &&
                    Adjacent(r, c, pr, pc) && g[pr, pc];
      assert Before(pr, pc, row, col + 1);
    }
  }

  lemma CoverRow(g: array2<bool>, r: int, c: int, row: int)
    ensures CoveredBefore(g, r, c, row, g.Length1) <==> CoveredBefore(g, r, c, row + 1, 0)
  {
    if CoveredBefore(g, r, c, row + 1, 0) {
      var pr, pc :| 0 <= pr < g.Length0 && 0 <= pc < g.Length1 && Before(pr, pc, row + 1, 0) &&
                    Adjacent(r, c, pr, pc) && g[pr, pc];
      assert Before(pr, pc, row, g.Length1);
    }
  }

  /**
   * _addPaddingToGrid: every cell within one row and one column of a cell
   * that was true in the original grid becomes true; no other cell changes.
   * The dimensions are those of the array.
   */
  method AddPaddingToGrid(grid: array2<bool>)
    modifies grid
    ensures forall r, c :: 0 <= r < grid.Length0 && 0 <= c < grid.Length1 ==>
              (grid[r, c] <==> exists pr, pc :: 0 <= pr < grid.Length0 && 0 <= pc < grid.Length1 &&
                                                Adjacent(r, c, pr, pc) && old(grid[pr, pc]))
  {
    var rows, cols := grid.Length0, grid.Length1;
    var original := new bool[rows, cols]((i, j) requires 0 <= i < rows && 0 <= j < cols reads grid => grid[i, j]);
    var row := 0;
    while row < rows
      invariant 0 <= row <= rows
      invariant forall r, c :: 0 <= r < rows && 0 <= c < cols ==> original[r, c] == old(grid[r, c])
      invariant forall r, c :: 0 <= r < rows && 0 <= c < cols ==>
                  (grid[r, c] <==> original[r, c] || CoveredBefore(original, r, c, row, 0))
    {
      var col := 0;
      while col < cols
        invariant 0 <= col <= cols
        invariant forall r, c :: 0 <= r < rows && 0 <= c < cols ==> original[r, c] == old(grid[r, c])
        invariant forall r, c :: 0 <= r < rows && 0 <= c < cols ==>
                    (grid[r, c] <==> original[r, c] || CoveredBefore(original, r, c, row, col))
      {
        if original[row, col] {
          Stamp(grid, row, col);
        }
        forall r, c | 0 <= r < rows && 0 <= c < cols
          ensures CoveredBefore(original, r, c, row, col + 1) <==>
                  CoveredBefore(original, r, c, row, col) || (original[row, col] && Adjacent(r, c, row, col))
        {
          CoverStep(original, r, c, row, col);
        }
        col := col + 1;
      }
      forall r, c | 0 <= r < rows && 0 <= c < cols
        ensures CoveredBefore(original, r, c, row, cols) <==> CoveredBefore(original, r, c, row + 1, 0)
      {
        CoverRow(original, r, c, row);
      }
      row := row + 1;
    }
    forall r, c | 0 <= r < rows && 0 <= c < cols
      ensures grid[r, c] <==> exists pr, pc :: 0 <= pr < rows && 0 <= pc < cols &&
                                              Adjacent(r, c, pr, pc) && old(grid[pr, pc])
    {
      if original[r, c] {
        assert Before(r, c, rows, 0) && Adjacent(r, c, r, c);
      }
      if exists pr, pc :: 0 <= pr < rows && 0 <= pc < cols && Adjacent(r, c, pr, pc) && old(grid[pr, pc]) {
        var pr, pc :| 0 <= pr < rows && 0 <= pc < cols && Adjacent(r, c, pr, pc) && old(grid[pr, pc]);
        assert Before(pr, pc, rows, 0) && original[pr, pc];
      }
    }
  }

  /** `Math.floor(r * (i + 1))` for a draw r of Math.random(): an index in [0, i]. */
  function Pick(r: real, i: nat): (j: nat)
    requires 0.0 <= r < 1.0
    ensures j <= i
  {
    var m := (i + 1) as real;
    assert 0.0 <= r * m < m by {
      assert r * m <= 1.0 * m;
      assert r * m != m;
    }
    (r * m).Floor
  }

  /** The exchange `[array[i], array[j]] = [array[j], array[i]]`. */
  function Swap<T>(s: seq<T>, i: nat, j: nat): (r: seq<T>)
    requires i < |s| && j < |s|
    ensures |r| == |s| && r[i] == s[j] && r[j] == s[i]
    ensures forall k :: 0 <= k < |s| && k != i && k != j ==> r[k] == s[k]
  {
    s[i := s[j]][j := s[i]]
  }

  predicate DrawsValid(draws: seq<real>)
  {
    forall k :: 0 <= k < |draws| ==> 0.0 <= draws[k] < 1.0
  }

  /**
   * The Fisher-Yates loop of `_shuffleArray` from index i down to 1;
   * draws[i] is the Math.random() value drawn at index i.
   */
  function ShuffleFrom<T>(s: seq<T>, draws: seq<real>, i: int): (r: seq<T>)
    requires |draws| == |s| && DrawsValid(draws)
    requires -1 <= i < |s|
    ensures |r| == |s|
    decreases i
  {
    if i <= 0 then s else ShuffleFrom(Swap(s, i, Pick(draws[i], i)), draws, i - 1)
  }

  function Shuffled<T>(s: seq<T>, draws: seq<real>): (r: seq<T>)
    requires |draws| == |s| && DrawsValid(draws)
    ensures |r| == |s|
  {
    ShuffleFrom(s, draws, |s| - 1)
  }

  lemma SwapPermutes<T>(s: seq<T>, i: nat, j: nat)
    requires i < |s| && j < |s|
    ensures multiset(Swap(s, i, j)) == multiset(s)
  {
    var t := s[i := s[j]];
    assert multiset(t) == multiset(s) - multiset{s[i]} + multiset{s[j]};
    assert multiset(t[j := s[i]]) == multiset(t) - multiset{t[j]} + multiset{s[i]};
  }

  /** `_shuffleArray` returns a permutation of its input, whatever the draws. */
  lemma {:induction false} ShufflePermutes<T>(s: seq<T>, draws: seq<real>, i: int)
    requires |draws| == |s| && DrawsValid(draws)
    requires -1 <= i < |s|
    ensures |ShuffleFrom(s, draws, i)| == |s|
    ensures multiset(ShuffleFrom(s, draws, i)) == multiset(s)
    decreases i
  {
    if i > 0 {
      var t := Swap(s, i, Pick(draws[i], i));
      SwapPermutes(s, i, Pick(draws[i], i));
      ShufflePermutes(t, draws, i - 1);
    }
  }

  /** `_shuffleArray(array)`, in place. */
  method ShuffleArray<T>(a: array<T>, draws: seq<real>)
    requires |draws| == a.Length && DrawsValid(draws)
    modifies a
    ensures a[..] == Shuffled(old(a[..]), draws)
  {
    var i := a.Length - 1;
    while i > 0
      invariant -1 <= i < a.Length
      invariant ShuffleFrom(a[..], draws, i) == Shuffled(old(a[..]), draws)
    {
      var j := Pick(draws[i], i);
      ghost var before := a[..];
      a[i], a[j] := a[j], a[i];
      assert a[..] == Swap(before, i, j);
      i := i - 1;
    }
  }

  /** A grid cell as `_selectDynamitePositions` records it: the cell centre and its indices. */
  datatype Position = Position(x: real, y: real, row: int, col: int)

  /** `origin + index * blockSize + blockSize / 2`. */
  function CellCenter(origin: real, index: int, blockSize: real): real
  {
    origin + index as real * blockSize + blockSize / 2.0
  }

  /** The positions of the true cells of `g` before (row, col), in row-major order. */
  function ValidPositions(g: array2<bool>, row: int, col: int, imageX: real, imageY: real, blockSize: real): seq<Position>
    reads g
    requires 0 <= row <= g.Length0 && 0 <= col <= g.Length1 && (row < g.Length0 || col == 0)
    decreases row, col
  {
    if col == 0 then
      if row == 0 then [] else ValidPositions(g, row - 1, g.Length1, imageX, imageY, blockSize)
    else
      ValidPositions(g, row, col - 1, imageX, imageY, blockSize) +
      (if g[row, col - 1] then [Position(CellCenter(imageX, col - 1, blockSize), CellCenter(imageY, row, blockSize), row, col - 1)]
       else [])
  }

  function AllValidPositions(g: array2<bool>, imageX: real, imageY: real, blockSize: real): seq<Position>
    reads g
  {
    ValidPositions(g, g.Length0, 0, imageX, imageY, blockSize)
  }

  /**
   * _selectDynamitePositions with the shuffle's draws as a parameter: the
   * first three shuffled valid positions when there are more than three, none otherwise.
   */
  method SelectDynamitePositions(grid: array2<bool>, imageX: real, imageY: real, blockSize: real, draws: seq<real>)
    returns (r: seq<Position>)
    requires |draws| == |AllValidPositions(grid, imageX, imageY, blockSize)| && DrawsValid(draws)
    ensures var all := AllValidPositions(grid, imageX, imageY, blockSize);
            if |all| > 3 then |r| == 3 && r == Shuffled(all, draws)[..3] else r == []
  {
    var valid: seq<Position> := [];
    var row := 0;
    while row < grid.Length0
      invariant 0 <= row <= grid.Length0
      invariant valid == ValidPositions(grid, row, 0, imageX, imageY, blockSize)
    {
      var col := 0;
      while col < grid.Length1
        invariant 0 <= col <= grid.Length1
        invariant valid == ValidPositions(grid, row, col, imageX, imageY, blockSize)
      {
        if grid[row, col] {
          valid := valid + [Position(CellCenter(imageX, col, blockSize), CellCenter(imageY, row, blockSize), row, col)];
        }
        assert valid == ValidPositions(grid, row, col + 1, imageX, imageY, blockSize);
        col := col + 1;
      }
      row := row + 1;
    }
    r := [];
    if |valid| > 3 {
      var arr := new Position[|valid|](k requires 0 <= k < |valid| => valid[k]);
      assert arr[..] == valid;
      ShuffleArray(arr, draws);
      ShufflePermutes(valid, draws, |valid| - 1);
      r := [arr[0], arr[1], arr[2]];
    }
  }

  /** Each position is a true cell of `g` before (row, col) with its centre, and the list is in strict row-major order. */
  predicate CellsInOrder(v: seq<Position>, g: array2<bool>, row: int, col: int, imageX: real, imageY: real, blockSize: real)
    reads g
  {
    (forall k :: 0 <= k < |v| ==>
       0 <= v[k].row < g.Length0 && 0 <= v[k].col < g.Length1 && g[v[k].row, v[k].col] &&
       Before(v[k].row, v[k].col, row, col) &&
       v[k].x == CellCenter(imageX, v[k].col, blockSize) && v[k].y == CellCenter(imageY, v[k].row, blockSize)) &&
    (forall i, j :: 0 <= i < j < |v| ==> Before(v[i].row, v[i].col, v[j].row, v[j].col))
  }

  /** Every recorded position is a true cell with its centre, and the cells are listed once each, in row-major order. */
  lemma {:induction false} ValidPositionsAreCells(g: array2<bool>, row: int, col: int, imageX: real, imageY: real, blockSize: real)
    requires 0 <= row <= g.Length0 && 0 <= col <= g.Length1 && (row < g.Length0 || col == 0)
    ensures CellsInOrder(ValidPositions(g, row, col, imageX, imageY, blockSize), g, row, col, imageX, imageY, blockSize)
    decreases row, col
  {
    if col == 0 {
      if row > 0 {
        ValidPositionsAreCells(g, row - 1, g.Length1, imageX, imageY, blockSize);
        var prev := ValidPositions(g, row - 1, g.Length1, imageX, imageY, blockSize);
        assert CellsInOrder(prev, g, row - 1, g.Length1, imageX, imageY, blockSize);
        forall k | 0 <= k < |prev|
          ensures Before(prev[k].row, prev[k].col, row, col)
        {
          assert Before(prev[k].row, prev[k].col, row - 1, g.Length1);
        }
      }
    } else {
      ValidPositionsAreCells(g, row, col - 1, imageX, imageY, blockSize);
      var prev := ValidPositions(g, row, col - 1, imageX, imageY, blockSize);
      assert CellsInOrder(prev, g, row, col - 1, imageX, imageY, blockSize);
      var v := ValidPositions(g, row, col, imageX, imageY, blockSize);
      assert forall k :: 0 <= k < |prev| ==> v[k] == prev[k];
      assert |v| > |prev| ==> |v| == |prev| + 1 && v[|prev|].row == row && v[|prev|].col == col - 1 && g[row, col - 1];
      forall k | 0 <= k < |v|
        ensures Before(v[k].row, v[k].col, row, col)
      {
        if k < |prev| {
          assert Before(prev[k].row, prev[k].col, row, col - 1);
        }
      }
      forall i, j | 0 <= i < j < |v|
        ensures Before(v[i].row, v[i].col, v[j].row, v[j].col)
      {
        if j == |prev| {
          assert Before(prev[i].row, prev[i].col, row, col - 1);
        }
      }
    }
  }

  /** Every true cell of the grid is recorded. */
  lemma {:induction false} TrueCellsRecorded(g: array2<bool>, row: int, col: int, imageX: real, imageY: real, blockSize: real,
                                             r: int, c: int)
    requires 0 <= row <= g.Length0 && 0 <= col <= g.Length1 && (row < g.Length0 || col == 0)
    requires 0 <= r < g.Length0 && 0 <= c < g.Length1 && g[r, c] && Before(r, c, row, col)
    ensures Position(CellCenter(imageX, c, blockSize), CellCenter(imageY, r, blockSize), r, c) in
            ValidPositions(g, row, col, imageX, imageY, blockSize)
    decreases row, col
  {
    if col == 0 {
      TrueCellsRecorded(g, row - 1, g.Length1, imageX, imageY, blockSize, r, c);
    } else if !(r == row && c == col - 1) {
      TrueCellsRecorded(g, row, col - 1, imageX, imageY, blockSize, r, c);
    }
  }

  lemma {:induction false} DistinctAtMostOnce<T>(s: seq<T>, x: T)
    requires Distinct(s)
    ensures multiset(s)[x] <= 1
    decreases |s|
  {
    if |s| > 0 {
      assert s == [s[0]] + s[1..];
      assert Distinct(s[1..]);
      DistinctAtMostOnce(s[1..], x);
      if s[0] == x {
        assert x !in s[1..];
      }
    }
  }

  /** A permutation of a list without repeats has no repeats. */
  lemma PermutationKeepsDistinct<T>(s: seq<T>, t: seq<T>)
    requires Distinct(s) && multiset(t) == multiset(s)
    ensures Distinct(t)
  {
    forall i, j | 0 <= i < j < |t|
      ensures t[i] != t[j]
    {
      if t[i] == t[j] {
        assert t == t[..i] + [t[i]] + t[i + 1..j] + [t[j]] + t[j + 1..];
        assert multiset(t)[t[i]] >= 2;
        DistinctAtMostOnce(s, t[i]);
      }
    }
  }

  /**
   * With more than three true cells, the three dynamite positions are
   * distinct true cells of the grid, each with its cell centre.
   */
  lemma DynamitePositionsDistinctCells(g: array2<bool>, imageX: real, imageY: real, blockSize: real, draws: seq<real>)
    requires var all := AllValidPositions(g, imageX, imageY, blockSize);
             |all| > 3 && |draws| == |all| && DrawsValid(draws)
    ensures var all := AllValidPositions(g, imageX, imageY, blockSize);
            var r := Shuffled(all, draws)[..3];
            Distinct(r) &&
            forall k :: 0 <= k < 3 ==> r[k] in all && 0 <= r[k].row < g.Length0 && 0 <= r[k].col < g.Length1 &&
                                       g[r[k].row, r[k].col] &&
                                       r[k].x == CellCenter(imageX, r[k].col, blockSize) &&
                                       r[k].y == CellCenter(imageY, r[k].row, blockSize)
  {
    var all := AllValidPositions(g, imageX, imageY, blockSize);
    ValidPositionsAreCells(g, g.Length0, 0, imageX, imageY, blockSize);
    assert all == ValidPositions(g, g.Length0, 0, imageX, imageY, blockSize);
    assert Distinct(all) by {
      forall i, j | 0 <= i < j < |all|
        ensures all[i] != all[j]
      {
        assert Before(all[i].row, all[i].col, all[j].row, all[j].col);
      }
    }
    var t := Shuffled(all, draws);
    ShufflePermutes(all, draws, |all| - 1);
    PermutationKeepsDistinct(all, t);
    forall k | 0 <= k < 3
      ensures t[k] in all
    {
      assert t[k] in multiset(t);
    }
  }
}
