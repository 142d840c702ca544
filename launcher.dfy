/**
 * The bomb launcher (js/BombLauncher.js): the slingshot bomb, its guards and
 * flags, the launched-bomb predicates and the out-of-bounds check.
 *
 * The launcher's `bombState.active` is kept in the scene record
 * (`GameRules.Control.launcherStateActive`), because the scene and the
 * game-state manager clear it too. Pointer and bomb positions are whole
 * pixels; the loaded textures are a parameter.
 */
module Launcher {

  import opened Wrappers
  import opened BombNames
  import opened GameRules
  import opened Bombs
  import opened Game

  const BowX := 300
  const BowY := 540
  const MaxDragDistance := 200.0
  /** Drags shorter than this do not fire. */
  const MinDragDistance := 20
  /** How far outside the game area a bomb may fly before it counts as missed. */
  const BoundsMargin := 100

  // ------------------------------------------------------------ bomb type names

  /** The short names validateBombType expands. */
  const ShortNames: map<string, string> := map[
    "blast" := Blast, "piercer" := Piercer, "cluster" := Cluster, "sticky" := Sticky,
    "shatterer" := Shatterer, "driller" := Driller, "ricochet" := Ricochet]

  /** The texture keys of the seven bomb types validateBombType knows. */
  const LaunchTypes: set<string> := {Blast, Piercer, Cluster, Sticky, Shatterer, Driller, Ricochet}

  /**
   * validateBombType with the scene's loaded texture keys: a missing (empty)
   * name is the blast bomb, a short name expands to its full name, a loaded
   * texture key is kept, and anything else falls back to the blast bomb.
   */
  function ValidateBombType(bombType: string, textures: set<string>): (r: string)
    ensures bombType == "" ==> r == Blast
    ensures bombType in ShortNames ==> r == ShortNames[bombType]
    ensures bombType != "" && bombType !in ShortNames && bombType in textures ==> r == bombType
    ensures r in textures || r in LaunchTypes
  {
    if bombType == "" then Blast
    else if bombType in ShortNames then ShortNames[bombType]
    else if bombType in textures then bombType
    else Blast
  }

  /** With the seven bomb textures loaded, a validated name is a loaded texture and validates to itself. */
  lemma ValidateBombTypeIdempotent(bombType: string, textures: set<string>)
    requires LaunchTypes <= textures
    ensures ValidateBombType(bombType, textures) in textures
    ensures ValidateBombType(ValidateBombType(bombType, textures), textures) == ValidateBombType(bombType, textures)
  {
    var r := ValidateBombType(bombType, textures);
    assert r in LaunchTypes ==> r !in ShortNames;
  }

  // ------------------------------------------------------------ the launch lock

  /**
   * launchBomb's `isLaunching` lock as js/BombLauncher.js:578-618 write it:
   * the launched result and the lock afterwards, for a call that finds the
   * lock in `isLaunching`, finds a bomb ready to fire (`ready`: a bomb, none
   * active, a pointer), and is given pointer coordinates and a long enough
   * drag. The lock is taken before the coordinate and drag checks, and those
   * two early returns leave it taken.
   */
  function LaunchLockAsWritten(isLaunching: bool, ready: bool, hasCoords: bool, longDrag: bool): (r: (bool, bool))
    ensures r.0 <==> !isLaunching && ready && hasCoords && longDrag
    ensures isLaunching ==> r.1
  {
    if !ready || isLaunching then (false, isLaunching)
    else if !hasCoords || !longDrag then (false, true)
    else (true, false)
  }

  /** The same lock with every return after it is taken releasing it: no call leaves it taken. */
  function LaunchLock(isLaunching: bool, ready: bool, hasCoords: bool, longDrag: bool): (r: (bool, bool))
    ensures r.0 <==> !isLaunching && ready && hasCoords && longDrag
    ensures !isLaunching ==> !r.1
  {
    if !ready || isLaunching then (false, isLaunching)
    else (hasCoords && longDrag, false)
  }

  /** One call to launchBomb, as seen by the lock: (ready, hasCoords, longDrag). */
  datatype Attempt = Attempt(ready: bool, hasCoords: bool, longDrag: bool)

  /** The lock after a run of calls, as written; and how many of them launched. */
  function RunAsWritten(isLaunching: bool, calls: seq<Attempt>): (r: (bool, nat))
    decreases |calls|
  {
    if |calls| == 0 then (isLaunching, 0)
    else
      var step := LaunchLockAsWritten(isLaunching, calls[0].ready, calls[0].hasCoords, calls[0].longDrag);
      var rest := RunAsWritten(step.1, calls[1..]);
      (rest.0, rest.1 + (if step.0 then 1 else 0))
  }

  /** The same with the corrected lock. */
  function Run(isLaunching: bool, calls: seq<Attempt>): (r: (bool, nat))
    decreases |calls|
  {
    if |calls| == 0 then (isLaunching, 0)
    else
      var step := LaunchLock(isLaunching, calls[0].ready, calls[0].hasCoords, calls[0].longDrag);
      var rest := Run(step.1, calls[1..]);
      (rest.0, rest.1 + (if step.0 then 1 else 0))
  }

  /** As written, once the lock is taken no later call launches, whatever the calls. */
  lemma {:induction false} LockedForever(calls: seq<Attempt>)
    ensures RunAsWritten(true, calls) == (true, 0)
    decreases |calls|
  {
    if |calls| > 0 {
      LockedForever(calls[1..]);
    }
  }

  /**
   * The input that shows it: a ready call with a drag shorter than 20 pixels
   * takes the lock and returns, and then even a ready long drag is refused.
   */
  lemma ShortDragLocksLauncher()
    ensures LaunchLockAsWritten(false, true, true, false) == (false, true)
    ensures RunAsWritten(false, [Attempt(true, true, false), Attempt(true, true, true)]) == (true, 0)
  {
    LockedForever([Attempt(true, true, true)]);
  }

  /** With the corrected lock, calls from an unlocked launcher leave it unlocked. */
  lemma {:induction false} NeverLocked(calls: seq<Attempt>)
    ensures !Run(false, calls).0
    decreases |calls|
  {
    if |calls| > 0 {
      NeverLocked(calls[1..]);
    }
  }

  /** With the corrected lock, a ready long drag launches whatever calls came before it. */
  lemma {:induction false} LaunchAfterAnything(calls: seq<Attempt>)
    ensures Run(false, calls + [Attempt(true, true, true)]).1 == Run(false, calls).1 + 1
    decreases |calls|
  {
    if |calls| == 0 {
      assert calls + [Attempt(true, true, true)] == [Attempt(true, true, true)];
    } else {
      var step := LaunchLock(false, calls[0].ready, calls[0].hasCoords, calls[0].longDrag);
      assert !step.1;
      assert (calls + [Attempt(true, true, true)])[1..] == calls[1..] + [Attempt(true, true, true)];
      LaunchAfterAnything(calls[1..]);
    }
  }

  // ------------------------------------------------------------ the launcher

  /** A pointer; its coordinates may be missing. */
  datatype Pointer = Pointer(x: Option<int>, y: Option<int>)

  /** The squared drag distance from the launch point (BOW_X, BOW_Y - 30). */
  function Drag2(px: int, py: int): int
  {
    (BowX - px) * (BowX - px) + (BowY - 30 - py) * (BowY - 30 - py)
  }

  /** The scene's aiming flag after setAiming(v): set only if the scene has one. */
  function Aimed(c: Control, v: bool): (r: Control)
    ensures r.isAiming.Some? <==> c.isAiming.Some?
    ensures c.isAiming.Some? ==> !v ==> !Aiming(r)
    ensures r == c.(isAiming := r.isAiming)
  {
    c.(isAiming := if c.isAiming.Some? then Some(v) else None)
  }

  /** A bomb is out of bounds once it is more than 100 pixels outside the game area on any side. */
  predicate OutOfBounds(x: int, y: int, width: int, height: int)
  {
    x < -BoundsMargin || x > width + BoundsMargin || y < -BoundsMargin || y > height + BoundsMargin
  }

  /**
   * The dynamic bomb launchBomb creates in place of the slingshot bomb:
   * launched, off the slingshot, not yet hit, with a dynamic body, its
   * type's sticky/driller/ricochet flag, and for a driller the drag length
   * capped at 200 as its launch power (0.0 stands for none).
   */
  method NewDynamicBomb(bombType: string, distance: real) returns (b: LaunchedBomb)
    ensures fresh(b) && b.bombType == bombType
    ensures b.inScene && b.isLaunched && !b.isAtSlingshot && !b.hasHitIceBlock && !b.hasExploded
    ensures b.hasBody && !b.bodyStatic && b.staticProp && b.visible && b.active
    ensures b.isSticky == (bombType == Sticky) && b.isDriller == (bombType == Driller) && b.isRicochet == (bombType == Ricochet)
    ensures b.launchPower == (if bombType != Driller then 0.0 else if distance < MaxDragDistance then distance else MaxDragDistance)
  {
    var launchPower := if bombType == Driller then (if distance < MaxDragDistance then distance else MaxDragDistance) else 0.0;
    b := new LaunchedBomb(bombType, launchPower);
    b.isLaunched := true;
    b.isAtSlingshot := false;
    b.hasHitIceBlock := false;
    b.bodyStatic := false;
    if bombType == Ricochet {
      b.isRicochet := true;
    }
    if bombType == Sticky {
      b.isSticky := true;
    }
    if bombType == Driller {
      b.isDriller := true;
    }
  }

  /** The launcher's bomb-state bookkeeping (`bombState.lastBombFired`, `lastResetTime`, `bombCreationPending`). */
  datatype BombState = BombState(lastBombFired: int, lastResetTime: int, bombCreationPending: bool)

  class BombLauncher {
    const scene: GameScene
    var bomb: LaunchedBomb?
    var isAiming: bool
    var isLaunching: bool
    var bombState: BombState
    var debugMode: bool

    /** The scene is consistent, and the held bomb is one the launcher made (its `isStatic` property is truthy). */
    ghost predicate Valid()
      reads this, bomb, scene, scene.gameStateManager
    {
      scene.Valid() && (bomb != null ==> bomb.staticProp)
    }

    /** bombState.active. */
    predicate Active()
      reads scene
    {
      scene.flow.control.launcherStateActive
    }

    constructor (scene: GameScene)
      requires scene.Valid()
      modifies scene
      ensures Valid() && this.scene == scene && bomb == null && !isAiming && !isLaunching
      ensures bombState == BombState(0, 0, false) && debugMode == old(scene.flow.control.debugMode)
      ensures scene.gameStateManager == old(scene.gameStateManager) && scene.BoardState() == old(scene.BoardState())
      ensures scene.flow == old(scene.flow).(control := old(scene.flow).control.(launcherStateActive := false))
    {
      this.scene := scene;
      bomb := null;
      isAiming := false;
      isLaunching := false;
      bombState := BombState(0, 0, false);
      debugMode := scene.flow.control.debugMode;
      new;
      scene.flow := scene.flow.(control := scene.flow.control.(launcherStateActive := false));
    }

    /**
     * isBombActive: bombState.active, or a held bomb that is not static and
     * is visible.
     */
    predicate IsBombActive()
      reads this, bomb, scene
    {
      Active() || (bomb != null && !bomb.staticProp && bomb.visible)
    }

    /** Every bomb the launcher holds has a truthy `isStatic`, so isBombActive is exactly bombState.active. */
    lemma IsBombActiveIsTheFlag()
      requires Valid()
      ensures IsBombActive() <==> Active()
    {
    }

    /**
     * getActiveLaunchedBomb: the held bomb, if it is in the scene, launched
     * and off the slingshot while bombState.active is set, and has a dynamic
     * body (or, as a body-less fallback, is marked launched).
     */
    function GetActiveLaunchedBomb(): (r: LaunchedBomb?)
      reads this, bomb, scene
      ensures r != null ==> r == bomb && r.inScene && r.isLaunched && !r.isAtSlingshot
      ensures r != null ==> IsBombActive()
      ensures !Active() ==> r == null
    {
      if bomb != null && bomb.inScene && bomb.isLaunched && !bomb.isAtSlingshot && Active() &&
         ((bomb.hasBody && !bomb.bodyStatic) || (!bomb.hasBody && bomb.isLaunched))
      then bomb
      else null
    }

    /** setAiming: the launcher's flag, and the scene's if it has one. */
    method SetAiming(v: bool)
      requires Valid()
      modifies this, scene
      ensures Valid() && scene.gameStateManager == old(scene.gameStateManager) && scene.BoardState() == old(scene.BoardState())
      ensures isAiming == v && scene.flow == old(scene.flow).(control := Aimed(old(scene.flow.control), v))
      ensures bomb == old(bomb) && isLaunching == old(isLaunching) && bombState == old(bombState) && debugMode == old(debugMode)
    {
      isAiming := v;
      if scene.flow.control.isAiming.Some? {
        scene.flow := scene.flow.(control := scene.flow.control.(isAiming := Some(v)));
      }
    }

    /**
     * createBomb: aiming is reset first; while a creation is pending nothing
     * else happens and the result is null. Otherwise the held bomb is
     * destroyed and a new one of the validated type sits, static, on the
     * slingshot; bombState.active is cleared, the reset time recorded, and
     * the pending flag ends cleared.
     */
    method CreateBomb(bombType: string, textures: set<string>, now: int) returns (created: LaunchedBomb?)
      requires Valid()
      modifies this, scene, bomb
      ensures Valid() && scene.gameStateManager == old(scene.gameStateManager) && scene.BoardState() == old(scene.BoardState())
      ensures !isAiming && isLaunching == old(isLaunching) && debugMode == old(debugMode)
      ensures old(bombState.bombCreationPending) ==>
                created == null && bomb == old(bomb) && bombState == old(bombState) &&
                scene.flow == old(scene.flow).(control := Aimed(old(scene.flow.control), false))
      ensures !old(bombState.bombCreationPending) ==>
                created != null && fresh(created) && bomb == created &&
                created.bombType == ValidateBombType(bombType, textures) &&
                !created.isLaunched && created.hasBody && created.bodyStatic && created.visible && created.inScene &&
                bombState == old(bombState).(lastResetTime := now, bombCreationPending := false) &&
                scene.flow == old(scene.flow).(control := Aimed(old(scene.flow.control), false).(launcherStateActive := false)) &&
                (old(bomb) != null ==> !old(bomb).inScene)
    {
      SetAiming(false);
      if bombState.bombCreationPending {
        return null;
      }
      bombState := bombState.(bombCreationPending := true);
      if bomb != null {
        bomb.inScene := false;
        bomb := null;
      }
      var validBombType := ValidateBombType(bombType, textures);
      created := new LaunchedBomb(validBombType, 0.0);
      bomb := created;
      scene.flow := scene.flow.(control := scene.flow.control.(launcherStateActive := false));
      bombState := bombState.(lastResetTime := now, bombCreationPending := false);
    }

    /** The 1000 ms timer a launch starts: the creation-pending flag is cleared. */
    method CreationPendingExpires()
      modifies this
      ensures bombState == old(bombState).(bombCreationPending := false)
      ensures bomb == old(bomb) && isAiming == old(isAiming) && isLaunching == old(isLaunching) && debugMode == old(debugMode)
    {
      bombState := bombState.(bombCreationPending := false);
    }

    /**
     * launchBomb, with the launch lock corrected (LaunchLock; see
     * LaunchLockAsWritten for the code as written). `distance` is the drag
     * length, the square root of Drag2. A ready call with coordinates and a
     * drag of at least 20 replaces the slingshot bomb by a fresh launched,
     * dynamic bomb of the same type with its sticky/driller/ricochet flag and
     * (driller) its capped launch power, marks both bomb states active, sets
     * the creation-pending flag and stops aiming. A shorter drag recreates
     * the slingshot bomb and stops aiming. A call that is not ready changes
     * nothing.
     */
    method LaunchBomb(pointer: Option<Pointer>, distance: real, textures: set<string>, now: int) returns (launched: bool)
      requires Valid()
      requires pointer.Some? && pointer.value.x.Some? && pointer.value.y.Some? ==>
                 distance >= 0.0 && distance * distance == Drag2(pointer.value.x.value, pointer.value.y.value) as real
      modifies this, scene, bomb
      ensures Valid() && scene.gameStateManager == old(scene.gameStateManager) && scene.BoardState() == old(scene.BoardState())
      ensures var ready := old(bomb != null && !IsBombActive()) && pointer.Some?;
              var hasCoords := pointer.Some? && pointer.value.x.Some? && pointer.value.y.Some?;
              var longDrag := hasCoords && Drag2(pointer.value.x.value, pointer.value.y.value) >= MinDragDistance * MinDragDistance;
              (launched, isLaunching) == LaunchLock(old(isLaunching), ready, hasCoords, longDrag) &&
              (!ready || old(isLaunching) || !hasCoords ==>
                 bomb == old(bomb) && isAiming == old(isAiming) && bombState == old(bombState) && scene.flow == old(scene.flow)) &&
              (ready && !old(isLaunching) && hasCoords && !longDrag ==>
                 !isAiming && (old(bombState.bombCreationPending) ==> bomb == old(bomb)) &&
                 (!old(bombState.bombCreationPending) ==> fresh(bomb) && !bomb.isLaunched && bomb.bodyStatic))
      ensures launched ==>
                fresh(bomb) && bomb.bombType == old(bomb.bombType) && !old(bomb).inScene &&
                bomb.inScene && bomb.isLaunched && !bomb.isAtSlingshot && !bomb.hasHitIceBlock &&
                bomb.hasBody && !bomb.bodyStatic && bomb.staticProp &&
                bomb.isSticky == (bomb.bombType == Sticky) && bomb.isDriller == (bomb.bombType == Driller) &&
                bomb.isRicochet == (bomb.bombType == Ricochet) &&
                (bomb.bombType == Driller ==> bomb.launchPower == (if distance < MaxDragDistance then distance else MaxDragDistance)) &&
                !isAiming && bombState == old(bombState).(lastBombFired := now, bombCreationPending := true) &&
                scene.flow == old(scene.flow).(control := Aimed(old(scene.flow.control), false).(launcherStateActive := true, bombStateActive := true))
      ensures debugMode == old(debugMode)
      ensures scene.flow.bombs == old(scene.flow.bombs) && scene.flow.currentBombType == old(scene.flow.currentBombType) &&
              scene.flow.progress == old(scene.flow.progress)
    {
      if bomb == null || IsBombActive() || pointer.None? || isLaunching {
        return false;
      }
      isLaunching := true;
      if pointer.value.x.None? || pointer.value.y.None? {
        isLaunching := false;
        return false;
      }
      if Drag2(pointer.value.x.value, pointer.value.y.value) < MinDragDistance * MinDragDistance {
        var _ := CreateBomb(bomb.bombType, textures, now);
        SetAiming(false);
        isLaunching := false;
        return false;
      }
      Fire(distance, now);
      isLaunching := false;
      launched := true;
    }

    /**
     * The successful end of launchBomb: the slingshot bomb is replaced by a
     * fresh launched, dynamic bomb of the same type, both bomb states go
     * active, the creation-pending flag is set and aiming stops.
     */
    method Fire(distance: real, now: int)
      requires Valid() && bomb != null
      modifies this, scene, bomb
      ensures Valid() && scene.gameStateManager == old(scene.gameStateManager) && scene.BoardState() == old(scene.BoardState())
      ensures fresh(bomb) && bomb.bombType == old(bomb.bombType) && !old(bomb).inScene &&
              bomb.inScene && bomb.isLaunched && !bomb.isAtSlingshot && !bomb.hasHitIceBlock &&
              bomb.hasBody && !bomb.bodyStatic && bomb.staticProp &&
              bomb.isSticky == (bomb.bombType == Sticky) && bomb.isDriller == (bomb.bombType == Driller) &&
              bomb.isRicochet == (bomb.bombType == Ricochet) &&
              (bomb.bombType == Driller ==> bomb.launchPower == (if distance < MaxDragDistance then distance else MaxDragDistance))
      ensures !isAiming && bombState == old(bombState).(lastBombFired := now, bombCreationPending := true) &&
              scene.flow == old(scene.flow).(control := Aimed(old(scene.flow.control), false).(launcherStateActive := true, bombStateActive := true))
      ensures isLaunching == old(isLaunching) && debugMode == old(debugMode)
    {
      var bombType := bomb.bombType;
      bomb.inScene := false;
      var dynamicBomb := NewDynamicBomb(bombType, distance);
      bomb := dynamicBomb;
      scene.flow := scene.flow.(control := scene.flow.control.(launcherStateActive := true, bombStateActive := true));
      bombState := bombState.(lastBombFired := now, bombCreationPending := true);
      SetAiming(false);
    }

    /**
     * checkForMissedBombs with the bomb's position and the game size: with a
     * held bomb while bombState.active is set, a bomb out of bounds is
     * destroyed and dropped and bombState.active cleared; the result says
     * whether that happened. The follow-up after 2000 ms is MissedBombTimer.
     */
    method CheckForMissedBombs(x: int, y: int, width: int, height: int) returns (handled: bool)
      requires Valid()
      modifies this, scene, bomb
      ensures Valid() && scene.gameStateManager == old(scene.gameStateManager) && scene.BoardState() == old(scene.BoardState())
      ensures handled <==> old(bomb) != null && old(Active()) && OutOfBounds(x, y, width, height)
      ensures handled ==> bomb == null && !old(bomb).inScene &&
                          scene.flow == old(scene.flow).(control := old(scene.flow).control.(launcherStateActive := false))
      ensures !handled ==> bomb == old(bomb) && scene.flow == old(scene.flow) && (bomb != null ==> unchanged(bomb))
      ensures isAiming == old(isAiming) && isLaunching == old(isLaunching) && bombState == old(bombState) && debugMode == old(debugMode)
    {
      if bomb == null || !Active() {
        return false;
      }
      var outOfBounds := x < -BoundsMargin || x > width + BoundsMargin || y < -BoundsMargin || y > height + BoundsMargin;
      if outOfBounds {
        if bomb.inScene {
          bomb.inScene := false;
        }
        bomb := null;
        scene.flow := scene.flow.(control := scene.flow.control.(launcherStateActive := false));
        return true;
      }
      return false;
    }

    /**
     * The timer checkForMissedBombs starts: with shots left a new bomb of the
     * current type (`'bomb'` when there is none) is created; otherwise the
     * scene checks level completion.
     */
    method MissedBombTimer(textures: set<string>, now: int)
      requires Valid()
      modifies this, scene, bomb
      ensures Valid() && scene.gameStateManager == old(scene.gameStateManager) && scene.BoardState() == old(scene.BoardState())
      ensures old(scene.flow.progress.shotsRemaining) <= 0 ==>
                scene.flow == SceneCheckLevelCompletion(old(scene.flow)) && bomb == old(bomb) && bombState == old(bombState)
      ensures old(scene.flow.progress.shotsRemaining) > 0 && !old(bombState.bombCreationPending) ==>
                fresh(bomb) && bomb.bombType == ValidateBombType(if old(scene.flow.currentBombType) == "" then "bomb" else old(scene.flow.currentBombType), textures)
      ensures isLaunching == old(isLaunching) && debugMode == old(debugMode)
    {
      if scene.flow.progress.shotsRemaining > 0 {
        var t := if scene.flow.currentBombType == "" then "bomb" else scene.flow.currentBombType;
        var _ := CreateBomb(t, textures, now);
      } else {
        scene.CheckLevelCompletion();
      }
    }

    /** toggleDebugMode: the given value, else the negation; the scene's flag follows, and the new value is returned. */
    method ToggleDebugMode(value: Option<bool>) returns (r: bool)
      requires Valid()
      modifies this, scene
      ensures Valid() && scene.gameStateManager == old(scene.gameStateManager) && scene.BoardState() == old(scene.BoardState())
      ensures r == (if value.Some? then value.value else !old(debugMode))
      ensures debugMode == r && scene.flow == old(scene.flow).(control := old(scene.flow).control.(debugMode := r))
      ensures bomb == old(bomb) && isAiming == old(isAiming) && isLaunching == old(isLaunching) && bombState == old(bombState)
    {
      debugMode := if value.Some? then value.value else !debugMode;
      scene.flow := scene.flow.(control := scene.flow.control.(debugMode := debugMode));
      r := debugMode;
    }
  }
}
