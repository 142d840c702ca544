/**
 * js/managers/CollisionManager.js: what happens when the launched bomb
 * touches something. A contact with an ice block is decided by the bomb's
 * type and the block's type (bounce, stick, drill or explode), the pairs of
 * one collision event are processed in order until a standard bomb has
 * exploded, and the event's outcome decides the follow-up (a delayed bomb
 * reset, a completion check, removal of the exploded bomb). A reflective
 * border bounces the bomb back along an axis-aligned normal that points
 * into the play area.
 *
 * The effects themselves (blast radii, particles, physics impulses) belong to
 * other files; here they are recorded as the handler calls that run, in order.
 */
module Collision {

  import opened Wrappers
  import opened BombNames
  import opened Bombs

  /** The flags the collision rules read and write on the launched bomb; `""` is a missing (falsy) type. */
  datatype Bomb = Bomb(
    bombType: string,
    hasHitIceBlock: bool,
    hasExploded: bool,
    isSticky: bool,
    isDriller: bool,
    isRicochet: bool)

  /** `{processed, hasExploded, bombStuck}` of one bomb-to-block contact. */
  datatype Outcome = Outcome(processed: bool, hasExploded: bool, bombStuck: bool)

  /**
   * A call the collision rules make into the effect code: handleBouncyBlock,
   * the dynamite chain (its effect, destroyBlocksInRadius with radius 200 and
   * destroyIceBlock on the dynamite block), or the bomb-type handler named.
   */
  datatype Effect = Bounce | DynamiteChain | Handler(name: string)

  /** `activeBomb.bombType || BLAST`. */
  function TypeOrBlast(t: string): (r: string)
    ensures r != ""
    ensures t != "" ==> r == t
  {
    if t == "" then Blast else t
  }

  /** Types whose explosion ends the processing of an event: all but sticky, driller and ricochet. */
  predicate IsStandard(t: string)
  {
    t != Sticky && t != Driller && t != Ricochet
  }

  /** The handler the type switch calls for a type that explodes; unknown types use the blast handler. */
  function ExplodingHandler(t: string): string
  {
    if t == Piercer || t == Cluster || t == Shatterer then t else Blast
  }

  /** _handleBombToBlockCollision: the bomb afterwards, the returned record and the effects that run. */
  function BlockHit(b: Bomb, blockType: string): (Bomb, Outcome, seq<Effect>)
  {
    var t := TypeOrBlast(b.bombType);
    var hit := b.(hasHitIceBlock := true);
    if blockType == "bouncy" && t != Sticky then
      (hit.(isRicochet := b.isRicochet || b.bombType == Ricochet), Outcome(true, false, false), [Bounce])
    else
      var dynamite := blockType == "dynamite" && (t == Blast || t == Shatterer);
      var pre := if dynamite then [DynamiteChain] else [];
      if b.hasExploded && t != Sticky && t != Driller then
        (hit, Outcome(dynamite, true, false), pre)
      else if t == Sticky then
        (hit.(isSticky := true, hasExploded := false), Outcome(true, false, true), pre + [Handler(Sticky)])
      else if t == Driller then
        (hit.(isDriller := true, hasExploded := false), Outcome(true, false, true), pre + [Handler(Driller)])
      else if t == Ricochet then
        (hit.(isRicochet := true, hasExploded := false), Outcome(true, false, false), pre + [Bounce])
      else
        (hit.(hasExploded := true), Outcome(true, true, false), pre + [Handler(ExplodingHandler(t))])
  }

  /** Every bomb-to-block contact marks the bomb as having hit ice, and never changes its type. */
  lemma HitMarksIce(b: Bomb, blockType: string)
    ensures BlockHit(b, blockType).0.hasHitIceBlock
    ensures BlockHit(b, blockType).0.bombType == b.bombType
  {
  }

  /** A bouncy block bounces every bomb but a sticky one, with no bomb effect and no explosion. */
  lemma BouncyBounces(b: Bomb)
    requires TypeOrBlast(b.bombType) != Sticky
    ensures BlockHit(b, "bouncy").1 == Outcome(true, false, false)
    ensures BlockHit(b, "bouncy").2 == [Bounce]
    ensures BlockHit(b, "bouncy").0.hasExploded == b.hasExploded
  {
  }

  /** Sticky and driller bombs are stuck, not exploded, and their own flag stays false. */
  lemma StickyAndDrillerStick(b: Bomb, blockType: string)
    requires b.bombType == Sticky || (b.bombType == Driller && blockType != "bouncy")
    ensures var (b1, o, _) := BlockHit(b, blockType);
            o == Outcome(true, false, true) && !b1.hasExploded &&
            (b.bombType == Sticky ==> b1.isSticky) && (b.bombType == Driller ==> b1.isDriller)
  {
  }

  /** A ricochet bomb that has not exploded neither explodes nor sticks, and is marked as ricocheting. */
  lemma RicochetNeither(b: Bomb, blockType: string)
    requires b.bombType == Ricochet && !b.hasExploded
    ensures var (b1, o, _) := BlockHit(b, blockType);
            o.processed && !o.hasExploded && !o.bombStuck && b1.isRicochet
  {
  }

  /**
   * Blast, piercer, cluster, shatterer and any unknown type explode when the
   * bomb has not exploded yet, and run their own handler.
   */
  lemma StandardExplodes(b: Bomb, blockType: string)
    requires IsStandard(TypeOrBlast(b.bombType)) && !b.hasExploded && blockType != "bouncy"
    ensures var (b1, o, fx) := BlockHit(b, blockType);
            o == Outcome(true, true, false) && b1.hasExploded &&
            |fx| > 0 && fx[|fx| - 1] == Handler(ExplodingHandler(TypeOrBlast(b.bombType)))
  {
  }

  /**
   * An already exploded bomb that is neither sticky nor driller gets no bomb
   * effect again (at most the dynamite chain of the block it touched) and
   * reports exploded.
   */
  lemma ExplodedNotReapplied(b: Bomb, blockType: string)
    requires b.hasExploded
    requires TypeOrBlast(b.bombType) != Sticky && TypeOrBlast(b.bombType) != Driller
    requires blockType != "bouncy"
    ensures var (b1, o, fx) := BlockHit(b, blockType);
            o.hasExploded && !o.bombStuck && b1.hasExploded &&
            forall k :: 0 <= k < |fx| ==> fx[k] == DynamiteChain
  {
  }

  /**
   * The other end of a collision pair, as handleCollisionStart classifies it:
   * `Ignored` covers a missing body, a pair without the active bomb and a
   * block no longer in the scene; `Block` carries whether the block is active
   * and still listed in the scene's ice blocks.
   */
  datatype Contact = Ignored | Border | Block(blockType: string, live: bool)

  /** The state handleCollisionStart accumulates over the pairs of one event. */
  datatype EventState = EventState(bomb: Bomb, exploded: bool, stuck: bool, effects: seq<Effect>)

  /** One pair of the loop. */
  function PairStep(s: EventState, c: Contact): (r: EventState)
    ensures r.bomb.bombType == s.bomb.bombType
    ensures s.exploded ==> r.exploded
    ensures s.stuck ==> r.stuck
    ensures |r.effects| >= |s.effects| && r.effects[..|s.effects|] == s.effects
  {
    match c
    case Ignored => s
    case Border =>
      s.(bomb := s.bomb.(isRicochet := s.bomb.isRicochet || s.bomb.bombType == Ricochet),
         effects := s.effects + [Bounce])
    case Block(blockType, live) =>
      if !live then s
      else
        var (b1, o, fx) := BlockHit(s.bomb, blockType);
        s.(bomb := b1,
           exploded := s.exploded || (o.processed && o.hasExploded),
           stuck := s.stuck || (o.processed && o.bombStuck),
           effects := s.effects + fx)
  }

  /** The pair loop: it stops right after a pair that leaves a standard bomb exploded. */
  function Process(s: EventState, pairs: seq<Contact>): EventState
    decreases |pairs|
  {
    if |pairs| == 0 then s
    else
      var s1 := PairStep(s, pairs[0]);
      if s1.exploded && IsStandard(TypeOrBlast(s.bomb.bombType)) then s1
      else Process(s1, pairs[1..])
  }

  /** The first contact of a non-empty list is handled, and the loop stops after it only on a standard explosion. */
  lemma ProcessFirst(s: EventState, pairs: seq<Contact>)
    requires |pairs| > 0
    ensures var s1 := PairStep(s, pairs[0]);
            Process(s, pairs) == if s1.exploded && IsStandard(TypeOrBlast(s.bomb.bombType)) then s1 else Process(s1, pairs[1..])
  {
  }

  /** The bomb's type is the same after the loop, and the flags and effects only grow. */
  lemma {:induction false} ProcessKeeps(s: EventState, pairs: seq<Contact>)
    ensures Process(s, pairs).bomb.bombType == s.bomb.bombType
    ensures s.exploded ==> Process(s, pairs).exploded
    ensures s.stuck ==> Process(s, pairs).stuck
    decreases |pairs|
  {
    if |pairs| > 0 {
      var s1 := PairStep(s, pairs[0]);
      if !(s1.exploded && IsStandard(TypeOrBlast(s.bomb.bombType))) {
        ProcessKeeps(s1, pairs[1..]);
      }
    }
  }

  /**
   * Once a standard bomb has exploded in an event, the pairs after the one
   * that exploded it are not processed: appending more pairs changes nothing.
   */
  lemma {:induction false} StopsAfterExplosion(s: EventState, pairs: seq<Contact>, more: seq<Contact>)
    requires IsStandard(TypeOrBlast(s.bomb.bombType)) && !s.exploded
    requires Process(s, pairs).exploded
    ensures Process(s, pairs + more) == Process(s, pairs)
    decreases |pairs|
  {
    if |pairs| == 0 {
    } else {
      var s1 := PairStep(s, pairs[0]);
      assert (pairs + more)[0] == pairs[0];
      if !(s1.exploded && IsStandard(TypeOrBlast(s.bomb.bombType))) {
        assert (pairs + more)[1..] == pairs[1..] + more;
        StopsAfterExplosion(s1, pairs[1..], more);
      }
    }
  }

  /**
   * Sticky, driller and ricochet bombs never report an explosion here, so
   * every pair of the event is processed: processing two runs of pairs one
   * after the other is processing them together.
   */
  lemma {:induction false} NonStandardProcessesAll(s: EventState, pairs: seq<Contact>, more: seq<Contact>)
    requires !IsStandard(TypeOrBlast(s.bomb.bombType))
    ensures !s.exploded ==> !Process(s, pairs).exploded
    ensures Process(s, pairs + more) == Process(Process(s, pairs), more)
    decreases |pairs|
  {
    if |pairs| == 0 {
      assert pairs + more == more;
    } else {
      var s1 := PairStep(s, pairs[0]);
      assert (pairs + more)[0] == pairs[0];
      assert (pairs + more)[1..] == pairs[1..] + more;
      NonStandardProcessesAll(s1, pairs[1..], more);
    }
  }

  /** What the `finally` block of handleCollisionStart asks the scene to do. */
  datatype FollowUp = FollowUp(scheduleReset: bool, checkCompletion: bool, destroyBomb: bool)

  /**
   * The follow-up: with shots left an explosion or a stuck bomb schedules a
   * bomb reset, without shots it checks for completion; the bomb still
   * reported active (`finalType` is its type) is destroyed, and the launcher
   * and scene references cleared, when it exploded and is a standard bomb.
   */
  function Finish(exploded: bool, stuck: bool, shotsRemaining: int, finalType: Option<string>): (r: FollowUp)
    ensures r.scheduleReset <==> (exploded || stuck) && shotsRemaining > 0
    ensures r.checkCompletion <==> (exploded || stuck) && shotsRemaining <= 0
    ensures !(r.scheduleReset && r.checkCompletion)
    ensures r.destroyBomb <==> finalType.Some? && exploded && IsStandard(finalType.value)
  {
    FollowUp((exploded || stuck) && shotsRemaining > 0,
             (exploded || stuck) && !(shotsRemaining > 0),
             finalType.Some? && exploded && IsStandard(finalType.value))
  }

  /** A sticky, driller or ricochet bomb is never destroyed by a collision event. */
  lemma NonStandardSurvives(b: Bomb, pairs: seq<Contact>, shotsRemaining: int)
    requires !IsStandard(TypeOrBlast(b.bombType))
    ensures var s := Process(EventState(b, false, false, []), pairs);
            !Finish(s.exploded, s.stuck, shotsRemaining, Some(b.bombType)).destroyBomb
  {
    NonStandardProcessesAll(EventState(b, false, false, []), pairs, []);
  }

  /** The flags of the bomb object. */
  function Flags(b: LaunchedBomb): Bomb
    reads b
  {
    Bomb(b.bombType, b.hasHitIceBlock, b.hasExploded, b.isSticky, b.isDriller, b.isRicochet)
  }

  /** What the collision rules leave alone on the bomb object. */
  function Rest(b: LaunchedBomb): (bool, bool, bool, bool, real, DrillerData?)
    reads b
  {
    (b.active, b.hasBody, b.inScene, b.isCurrentlyDrilling, b.launchPower, b.drillerData)
  }

  /** _handleBombToBlockCollision on the bomb object. */
  method HandleBombToBlockCollision(bomb: LaunchedBomb, blockType: string) returns (o: Outcome, fx: seq<Effect>)
    modifies bomb
    ensures (Flags(bomb), o, fx) == BlockHit(old(Flags(bomb)), blockType)
    ensures Rest(bomb) == old(Rest(bomb))
  {
    var t := TypeOrBlast(bomb.bombType);
    bomb.hasHitIceBlock := true;
    if blockType == "bouncy" && t != Sticky {
      if bomb.bombType == Ricochet {
        bomb.isRicochet := true;
      }
      return Outcome(true, false, false), [Bounce];
    }
    var processed := false;
    fx := [];
    if blockType == "dynamite" && (t == Blast || t == Shatterer) {
      fx := [DynamiteChain];
      processed := true;
    }
    if bomb.hasExploded && t != Sticky && t != Driller {
      return Outcome(processed, true, false), fx;
    }
    var exploded := false;
    var stuck := false;
    var shouldExplode := true;
    if t == Sticky {
      shouldExplode := false;
      bomb.isSticky := true;
      fx := fx + [Handler(Sticky)];
      stuck := true;
    } else if t == Driller {
      shouldExplode := false;
      bomb.isDriller := true;
      fx := fx + [Handler(Driller)];
      stuck := true;
    } else if t == Ricochet {
      shouldExplode := false;
      bomb.isRicochet := true;
      fx := fx + [Bounce];
    } else {
      fx := fx + [Handler(ExplodingHandler(t))];
      exploded := true;
    }
    bomb.hasExploded := if shouldExplode then exploded else false;
    o := Outcome(true, bomb.hasExploded, stuck);
  }

  /** One pass of handleCollisionStart's loop body on the bomb object. */
  method ContactStep(activeBomb: LaunchedBomb, c: Contact, exploded: bool, stuck: bool, effects: seq<Effect>)
    returns (exploded': bool, stuck': bool, effects': seq<Effect>)
    modifies activeBomb
    ensures EventState(Flags(activeBomb), exploded', stuck', effects') ==
            PairStep(EventState(old(Flags(activeBomb)), exploded, stuck, effects), c)
    ensures Rest(activeBomb) == old(Rest(activeBomb))
  {
    exploded', stuck', effects' := exploded, stuck, effects;
    match c {
      case Ignored =>
      case Border =>
        if activeBomb.bombType == Ricochet {
          activeBomb.isRicochet := true;
        }
        effects' := effects + [Bounce];
      case Block(blockType, live) =>
        if live {
          var o, fx := HandleBombToBlockCollision(activeBomb, blockType);
          effects' := effects + fx;
          if o.processed {
            if o.hasExploded {
              exploded' := true;
            }
            if o.bombStuck {
              stuck' := true;
            }
          }
        }
    }
  }

  /**
   * handleCollisionStart for the bomb the launcher reports active (`null`
   * when there is none): the entry guards, the pair loop with its break, and
   * the follow-up. `finalType` is the type of the bomb the launcher reports
   * active once the loop is over.
   */
  method HandleCollisionStart(activeBomb: LaunchedBomb?, pairs: seq<Contact>, shotsRemaining: int, finalType: Option<string>)
    returns (follow: FollowUp, effects: seq<Effect>)
    modifies activeBomb
    ensures activeBomb == null || (old(activeBomb.hasExploded) && !(old(activeBomb.isSticky) || old(activeBomb.isDriller))) ||
            !activeBomb.active || !activeBomb.hasBody ==>
              follow == FollowUp(false, false, false) && effects == [] &&
              (activeBomb != null ==> Flags(activeBomb) == old(Flags(activeBomb)))
    ensures activeBomb != null && !(old(activeBomb.hasExploded) && !(old(activeBomb.isSticky) || old(activeBomb.isDriller))) &&
            activeBomb.active && activeBomb.hasBody ==>
              var s := Process(EventState(old(Flags(activeBomb)), false, false, []), pairs);
              Flags(activeBomb) == s.bomb && effects == s.effects &&
              follow == Finish(s.exploded, s.stuck, shotsRemaining, finalType)
    ensures activeBomb != null ==> Rest(activeBomb) == old(Rest(activeBomb))
  {
    if activeBomb == null {
      return FollowUp(false, false, false), [];
    }
    if activeBomb.hasExploded && !(activeBomb.isSticky || activeBomb.isDriller) {
      return FollowUp(false, false, false), [];
    }
    if !activeBomb.active || !activeBomb.hasBody {
      return FollowUp(false, false, false), [];
    }
    var exploded, stuck;
    exploded, stuck, effects := RunPairs(activeBomb, pairs);
    follow := Finish(exploded, stuck, shotsRemaining, finalType);
  }

  /** The pair loop of handleCollisionStart, with its break. */
  method RunPairs(activeBomb: LaunchedBomb, pairs: seq<Contact>) returns (exploded: bool, stuck: bool, effects: seq<Effect>)
    modifies activeBomb
    ensures EventState(Flags(activeBomb), exploded, stuck, effects) ==
            Process(EventState(old(Flags(activeBomb)), false, false, []), pairs)
    ensures Rest(activeBomb) == old(Rest(activeBomb))
  {
    ghost var start := EventState(Flags(activeBomb), false, false, []);
    var t := TypeOrBlast(activeBomb.bombType);
    exploded := false;
    stuck := false;
    effects := [];
    var i := 0;
    while i < |pairs|
      invariant 0 <= i <= |pairs|
      invariant Rest(activeBomb) == old(Rest(activeBomb))
      invariant Process(start, pairs) == Process(EventState(Flags(activeBomb), exploded, stuck, effects), pairs[i..])
      invariant activeBomb.bombType == start.bomb.bombType
      invariant !(exploded && IsStandard(t))
      decreases |pairs| - i
    {
      ghost var before := EventState(Flags(activeBomb), exploded, stuck, effects);
      exploded, stuck, effects := ContactStep(activeBomb, pairs[i], exploded, stuck, effects);
      ProcessFirst(before, pairs[i..]);
      assert pairs[i..][0] == pairs[i] && pairs[i..][1..] == pairs[i + 1..];
      if exploded && IsStandard(t) {
        return;
      }
      i := i + 1;
    }
  }

  /**
   * handleBouncyBlock's normal for a reflective border of the given size at
   * (x, y) in a camera view of the given size: a border wider than tall is
   * the top or bottom edge, any other the left or right edge.
   */
  function BorderNormal(width: int, height: int, x: int, y: int, camWidth: int, camHeight: int): (r: (int, int))
  {
    if width > height then (0, if 2 * y < camHeight then 1 else -1)
    else (if 2 * x < camWidth then 1 else -1, 0)
  }

  /** The normal is a unit vector along one axis and points towards the middle of the view. */
  lemma BorderNormalInward(width: int, height: int, x: int, y: int, camWidth: int, camHeight: int)
    ensures var (nx, ny) := BorderNormal(width, height, x, y, camWidth, camHeight);
            nx * ny == 0 && nx * nx + ny * ny == 1 &&
            (width > height ==> nx == 0 && (2 * y != camHeight ==> ny * (camHeight - 2 * y) > 0)) &&
            (width <= height ==> ny == 0 && (2 * x != camWidth ==> nx * (camWidth - 2 * x) > 0))
  {
  }
}
