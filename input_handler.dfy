/**
 * The bomb input handler (js/BombInputHandler.js): it starts aiming when the
 * pointer goes down near a visible slingshot bomb, fires on pointer up and
 * accounts for the shot, and resets aiming afterwards.
 *
 * The launcher is the scene's `bombLauncher`, fixed when the handler is made.
 * Positions are whole pixels given as parameters, and so is the drag length
 * that goes with a pointer. Sounds and the `updateShots` notification are
 * events in the scene record.
 */
module InputHandler {

  import opened Wrappers
  import opened OrderedMap
  import opened GameRules
  import opened Game
  import opened Launcher

  const DesktopTouchRadius := 80
  const MobileTouchRadius := 120

  /**
   * A pointer at (px, py) touches a bomb at (bombX, bombY) when their distance is
   * below the touch radius. Both sides are non-negative, so the distance is
   * compared through its square.
   */
  predicate WithinTouch(px: int, py: int, bombX: int, bombY: int, desktop: bool)
  {
    var r := if desktop then DesktopTouchRadius else MobileTouchRadius;
    (px - bombX) * (px - bombX) + (py - bombY) * (py - bombY) < r * r
  }

  /** A touch right on the bomb always counts, and a touch 120 px or more away never does. */
  lemma TouchRadiusBounds(px: int, py: int, bombX: int, bombY: int, desktop: bool)
    ensures px == bombX && py == bombY ==> WithinTouch(px, py, bombX, bombY, desktop)
    ensures (px - bombX) * (px - bombX) >= MobileTouchRadius * MobileTouchRadius ==> !WithinTouch(px, py, bombX, bombY, desktop)
    ensures !desktop && WithinTouch(px, py, bombX, bombY, true) ==> WithinTouch(px, py, bombX, bombY, false)
  {
    assert (py - bombY) * (py - bombY) >= 0;
  }

  /** The scene's control record after resetAimState: neither the launcher nor the scene is aiming. */
  function AimReset(c: Control): (r: Control)
    ensures r.isAiming == Some(false)
    ensures r.(isAiming := c.isAiming) == c
  {
    c.(isAiming := Some(false))
  }

  /**
   * The scene after a pointer cancel, before its bomb count is lowered: aiming
   * is reset and, unless a bomb creation is pending, the launcher's
   * bombState.active is cleared by the new slingshot bomb.
   */
  function Cancelled(p: Play, pending: bool): (r: Play)
    ensures r.bombs == p.bombs && r.currentBombType == p.currentBombType && r.progress == p.progress
    ensures !Aiming(r.control)
    ensures r.control.launcherStateActive == (p.control.launcherStateActive && pending)
  {
    var c := AimReset(p.control);
    p.(control := if pending then c else c.(launcherStateActive := false))
  }

  /** The bomb a pointer cancel recreates: the current type, or 'bomb' when there is none. */
  function CancelBombType(current: string): (r: string)
    ensures current != "" ==> r == current
    ensures r != ""
  {
    if current == "" then "bomb" else current
  }

  /**
   * A pointer cancel spends one bomb of the current type when it has any left,
   * although nothing is launched, and never touches the shot counter.
   */
  lemma CancelSpendsABomb(p: Play, pending: bool)
    requires Valid(p.bombs) && NonNegative(p.bombs)
    ensures var r := Decrement(Cancelled(p, pending), p.currentBombType);
            r.progress.shotsRemaining == p.progress.shotsRemaining &&
            (Positive(p.bombs, p.currentBombType) ==> r.bombs.vals[p.currentBombType] == p.bombs.vals[p.currentBombType] - 1) &&
            (!Positive(p.bombs, p.currentBombType) ==> r.bombs == p.bombs)
  {
    var t := p.currentBombType;
    var q := Cancelled(p, pending);
    DecrementOnlyThatType(q, t);
  }

  /**
   * The guards fireBomb checks before it asks the launcher to launch: no
   * bomb, a bomb already active, no shots left, or no bombs of the selected
   * type left. A type missing from the counts does not block.
   */
  predicate FireBlocked(hasBomb: bool, bombActive: bool, p: Play)
  {
    !hasBomb || bombActive || p.progress.shotsRemaining <= 0 ||
    (Get(p.bombs, p.currentBombType).Some? && Get(p.bombs, p.currentBombType).value <= 0)
  }

  /** Only the first two guards are silent; the other two play the error sound. */
  function FireGuardEvents(hasBomb: bool, bombActive: bool, p: Play): (r: seq<Event>)
    ensures !FireBlocked(hasBomb, bombActive, p) ==> r == []
    ensures FireBlocked(hasBomb, bombActive, p) && hasBomb && !bombActive ==> r == [ErrorSound]
    ensures !hasBomb || bombActive ==> r == []
  {
    if !hasBomb || bombActive then []
    else if FireBlocked(hasBomb, bombActive, p) then [ErrorSound]
    else []
  }

  class BombInputHandler {
    const scene: GameScene
    const launcher: BombLauncher
    var isAiming: bool

    ghost predicate Valid()
      reads this, launcher, launcher.bomb, scene, scene.gameStateManager
    {
      launcher.scene == scene && launcher.Valid()
    }

    constructor (scene: GameScene, launcher: BombLauncher)
      requires launcher.scene == scene
      ensures this.scene == scene && this.launcher == launcher && !isAiming
    {
      this.scene := scene;
      this.launcher := launcher;
      isAiming := false;
    }

    /**
     * resetAimState: the launcher stops aiming, and the handler's and the
     * scene's aiming flags become false. Nothing else changes.
     */
    method ResetAimState()
      requires Valid()
      modifies this, launcher, scene
      ensures Valid() && scene.gameStateManager == old(scene.gameStateManager) && scene.BoardState() == old(scene.BoardState())
      ensures !isAiming && !launcher.isAiming
      ensures scene.flow == old(scene.flow).(control := AimReset(old(scene.flow.control)))
      ensures launcher.bomb == old(launcher.bomb) && launcher.isLaunching == old(launcher.isLaunching) &&
              launcher.bombState == old(launcher.bombState) && launcher.debugMode == old(launcher.debugMode)
    {
      launcher.SetAiming(false);
      isAiming := false;
      scene.flow := scene.flow.(control := scene.flow.control.(isAiming := Some(false)));
    }

    /**
     * handlePointerDown: with shots left and a visible slingshot bomb, a
     * pointer within the touch radius of the bomb starts the launcher aiming.
     * Any other pointer down changes nothing.
     */
    method HandlePointerDown(px: int, py: int, bombX: int, bombY: int, desktop: bool)
      requires Valid()
      modifies launcher, scene
      ensures Valid() && scene.gameStateManager == old(scene.gameStateManager) && scene.BoardState() == old(scene.BoardState())
      ensures var starts := old(scene.flow.progress.shotsRemaining) > 0 && old(launcher.bomb) != null &&
                            old(launcher.bomb.visible) && WithinTouch(px, py, bombX, bombY, desktop);
              (starts ==> launcher.isAiming && scene.flow == old(scene.flow).(control := Aimed(old(scene.flow.control), true))) &&
              (!starts ==> launcher.isAiming == old(launcher.isAiming) && scene.flow == old(scene.flow))
      ensures launcher.bomb == old(launcher.bomb) && launcher.isLaunching == old(launcher.isLaunching) &&
              launcher.bombState == old(launcher.bombState) && launcher.debugMode == old(launcher.debugMode)
    {
      if scene.flow.progress.shotsRemaining <= 0 || launcher.bomb == null || !launcher.bomb.visible {
        return;
      }
      if WithinTouch(px, py, bombX, bombY, desktop) {
        launcher.SetAiming(true);
      }
    }

    /**
     * handlePointerCancel: aiming is reset, the slingshot bomb is recreated
     * with the current type (or 'bomb'), and the current type's count is
     * lowered as if a bomb had been spent.
     */
    method HandlePointerCancel(textures: set<string>, now: int)
      requires Valid()
      modifies this, launcher, scene, launcher.bomb
      ensures Valid() && scene.gameStateManager == old(scene.gameStateManager) && scene.BoardState() == old(scene.BoardState())
      ensures !isAiming && !launcher.isAiming
      ensures scene.flow == Decrement(Cancelled(old(scene.flow), old(launcher.bombState.bombCreationPending)), old(scene.flow.currentBombType))
      ensures !old(launcher.bombState.bombCreationPending) ==>
                fresh(launcher.bomb) && launcher.bomb.bombType == ValidateBombType(CancelBombType(old(scene.flow.currentBombType)), textures) &&
                !launcher.bomb.isLaunched && launcher.bomb.bodyStatic
    {
      ResetAimState();
      var _ := launcher.CreateBomb(CancelBombType(scene.flow.currentBombType), textures, now);
      scene.DecrementBombCount(scene.flow.currentBombType);
    }

    /**
     * handlePointerUp: a pointer without coordinates only resets aiming;
     * otherwise the bomb is fired.
     */
    method HandlePointerUp(pointer: Option<Pointer>, distance: real, textures: set<string>, now: int) returns (launched: bool)
      requires Valid()
      requires pointer.Some? && pointer.value.x.Some? && pointer.value.y.Some? ==>
                 distance >= 0.0 && distance * distance == Drag2(pointer.value.x.value, pointer.value.y.value) as real
      modifies this, launcher, scene, launcher.bomb
      ensures Valid() && scene.gameStateManager == old(scene.gameStateManager) && scene.BoardState() == old(scene.BoardState())
      ensures !isAiming && !launcher.isAiming && scene.flow.control.isAiming == Some(false)
      ensures pointer.None? || pointer.value.x.None? || pointer.value.y.None? ==>
                !launched && scene.flow == old(scene.flow).(control := AimReset(old(scene.flow.control)))
      ensures launched ==> scene.flow.progress.shotsRemaining == old(scene.flow.progress.shotsRemaining) - 1
      ensures !launched ==> scene.flow.progress.shotsRemaining == old(scene.flow.progress.shotsRemaining) &&
                            scene.flow.bombs == old(scene.flow.bombs)
    {
      if pointer.None? || pointer.value.x.None? || pointer.value.y.None? {
        ResetAimState();
        return false;
      }
      launched := FireBomb(pointer, distance, textures, now);
    }

    /**
     * fireBomb: when one of the guards holds (FireBlocked) nothing is
     * launched and no counter changes; the last two guards play the error
     * sound. Otherwise the launcher decides (LaunchLock). A launch lowers the
     * shots by exactly one, lowers the current type's count once and plays
     * the launch sound. Aiming is reset in every case.
     */
    method FireBomb(pointer: Option<Pointer>, distance: real, textures: set<string>, now: int) returns (launched: bool)
      requires Valid()
      requires pointer.Some? && pointer.value.x.Some? && pointer.value.y.Some? ==>
                 distance >= 0.0 && distance * distance == Drag2(pointer.value.x.value, pointer.value.y.value) as real
      modifies this, launcher, scene, launcher.bomb
      ensures Valid() && scene.gameStateManager == old(scene.gameStateManager) && scene.BoardState() == old(scene.BoardState())
      ensures !isAiming && !launcher.isAiming && scene.flow.control.isAiming == Some(false)
      ensures var blocked := FireBlocked(old(launcher.bomb) != null, old(launcher.bomb != null && launcher.IsBombActive()), old(scene.flow));
              (blocked ==> !launched && launcher.bomb == old(launcher.bomb) && launcher.bombState == old(launcher.bombState) &&
                           scene.flow == old(scene.flow).(control := AimReset(old(scene.flow.control)),
                                                          events := old(scene.flow.events) +
                                                                    FireGuardEvents(old(launcher.bomb) != null, old(launcher.bomb != null && launcher.IsBombActive()), old(scene.flow)))) &&
              (!blocked ==>
                 var hasCoords := pointer.Some? && pointer.value.x.Some? && pointer.value.y.Some?;
                 var longDrag := hasCoords && Drag2(pointer.value.x.value, pointer.value.y.value) >= MinDragDistance * MinDragDistance;
                 (launched, launcher.isLaunching) == LaunchLock(old(launcher.isLaunching), pointer.Some?, hasCoords, longDrag))
      ensures launched ==>
                fresh(launcher.bomb) && launcher.bomb.isLaunched && launcher.bomb.bombType == old(launcher.bomb.bombType) &&
                scene.flow.progress.shotsRemaining == old(scene.flow.progress.shotsRemaining) - 1 &&
                scene.flow.bombs == Decrement(old(scene.flow), old(scene.flow.currentBombType)).bombs
      ensures !launched ==> scene.flow.progress.shotsRemaining == old(scene.flow.progress.shotsRemaining) &&
                            scene.flow.bombs == old(scene.flow.bombs)
    {
      if launcher.bomb == null || launcher.IsBombActive() {
        ResetAimState();
        return false;
      }
      if scene.flow.progress.shotsRemaining <= 0 {
        scene.flow := scene.flow.(events := scene.flow.events + [ErrorSound]);
        ResetAimState();
        return false;
      }
      var currentBombType := scene.flow.currentBombType;
      var count := Get(scene.flow.bombs, currentBombType);
      if count.Some? && count.value <= 0 {
        scene.flow := scene.flow.(events := scene.flow.events + [ErrorSound]);
        ResetAimState();
        return false;
      }
      launched := LaunchAndCount(pointer, distance, textures, now);
    }

    /** fireBomb once its guards have passed: the launcher decides, a launch is counted, and aiming is reset. */
    method LaunchAndCount(pointer: Option<Pointer>, distance: real, textures: set<string>, now: int) returns (launched: bool)
      requires Valid() && launcher.bomb != null && !launcher.IsBombActive()
      requires pointer.Some? && pointer.value.x.Some? && pointer.value.y.Some? ==>
                 distance >= 0.0 && distance * distance == Drag2(pointer.value.x.value, pointer.value.y.value) as real
      modifies this, launcher, scene, launcher.bomb
      ensures Valid() && scene.gameStateManager == old(scene.gameStateManager) && scene.BoardState() == old(scene.BoardState())
      ensures !isAiming && !launcher.isAiming && scene.flow.control.isAiming == Some(false)
      ensures var hasCoords := pointer.Some? && pointer.value.x.Some? && pointer.value.y.Some?;
              var longDrag := hasCoords && Drag2(pointer.value.x.value, pointer.value.y.value) >= MinDragDistance * MinDragDistance;
              (launched, launcher.isLaunching) == LaunchLock(old(launcher.isLaunching), pointer.Some?, hasCoords, longDrag)
      ensures launched ==>
                fresh(launcher.bomb) && launcher.bomb.isLaunched && launcher.bomb.bombType == old(launcher.bomb.bombType) &&
                scene.flow.progress.shotsRemaining == old(scene.flow.progress.shotsRemaining) - 1 &&
                scene.flow.bombs == Decrement(old(scene.flow), old(scene.flow.currentBombType)).bombs
      ensures !launched ==> scene.flow.progress.shotsRemaining == old(scene.flow.progress.shotsRemaining) &&
                            scene.flow.bombs == old(scene.flow.bombs)
    {
      var currentBombType := scene.flow.currentBombType;
      launched := launcher.LaunchBomb(pointer, distance, textures, now);
      if launched {
        CountShot(currentBombType);
      }
      ResetAimState();
    }

    /** The accounting after a launch: one shot fewer, announced, one bomb of the type fewer, and the launch sound. */
    method CountShot(bombType: string)
      requires Valid()
      modifies scene
      ensures Valid() && scene.gameStateManager == old(scene.gameStateManager) && scene.BoardState() == old(scene.BoardState())
      ensures var shots := old(scene.flow.progress.shotsRemaining) - 1;
              var counted := old(scene.flow).(progress := old(scene.flow.progress).(shotsRemaining := shots),
                                              events := old(scene.flow.events) + [ShotsUpdated(shots)]);
              var d := Decrement(counted, bombType);
              scene.flow == d.(events := d.events + [LaunchSound])
    {
      var shots := scene.flow.progress.shotsRemaining - 1;
      scene.flow := scene.flow.(progress := scene.flow.progress.(shotsRemaining := shots),
                                events := scene.flow.events + [ShotsUpdated(shots)]);
      scene.DecrementBombCount(bombType);
      scene.flow := scene.flow.(events := scene.flow.events + [LaunchSound]);
    }
  }
}
