/**
 * The bomb objects several parts of the game write to: the launched bomb
 * (js/BombLauncher.js creates it; the collision rules and js/BombUtils.js
 * set its flags), a stuck sticky bomb (js/BombUtils.js handleStickyBomb)
 * and the record of a drilling driller bomb (js/BombUtils.js
 * handleDrillerBomb). Positions are whole pixels.
 */
module Bombs {

  /** The launched bomb and the flags stored on it. `""` is a missing (falsy) type. */
  class LaunchedBomb {
    var bombType: string
    var hasHitIceBlock: bool
    var hasExploded: bool
    var isSticky: bool
    var isDriller: bool
    var isRicochet: bool
    /** `active`, a physics body, and membership of the scene (`bomb.scene`). */
    var active: bool
    var hasBody: bool
    var inScene: bool
    /** handleDrillerBomb's re-entry flag, the stored launch power and the drilling record. */
    var isCurrentlyDrilling: bool
    var launchPower: real
    var drillerData: DrillerData?
    /**
     * The launcher's marks (`isLaunched`, `isAtSlingshot`), whether the body
     * is static (`body.isStatic`), visibility, and whether the object's own
     * `isStatic` property is truthy (it is a method on physics images, and
     * `true` on the sprite fallback).
     */
    var isLaunched: bool
    var isAtSlingshot: bool
    var bodyStatic: bool
    var visible: bool
    var staticProp: bool

    /** A bomb as the launcher places it on the slingshot: static, visible, not launched. */
    constructor (bombType: string, launchPower: real)
      ensures this.bombType == bombType && this.launchPower == launchPower
      ensures !hasHitIceBlock && !hasExploded && !isSticky && !isDriller && !isRicochet
      ensures active && hasBody && inScene && !isCurrentlyDrilling && drillerData == null
      ensures !isLaunched && !isAtSlingshot && bodyStatic && visible && staticProp
    {
      this.bombType := bombType;
      hasHitIceBlock := false;
      hasExploded := false;
      isSticky := false;
      isDriller := false;
      isRicochet := false;
      active := true;
      hasBody := true;
      inScene := true;
      isCurrentlyDrilling := false;
      this.launchPower := launchPower;
      drillerData := null;
      isLaunched := false;
      isAtSlingshot := false;
      bodyStatic := true;
      visible := true;
      staticProp := true;
    }

    /** explodeRicochetBomb's first step: `hasExploded = true`, then `destroy()`. */
    method MarkExploded()
      modifies this
      ensures hasExploded && !inScene
    {
      hasExploded := true;
      inScene := false;
    }
  }

  /** A stuck sticky bomb waiting for a nearby explosion; `spriteInScene` is `bombSprite && bombSprite.scene`. */
  class StickyBomb {
    var x: int
    var y: int
    var isActive: bool
    var spriteInScene: bool

    constructor (x: int, y: int)
      ensures this.x == x && this.y == y && isActive && spriteInScene
    {
      this.x := x;
      this.y := y;
      isActive := true;
      spriteInScene := true;
    }
  }

  /**
   * A driller bomb's drilling record. `bombInScene` is
   * `associatedBombInstance && associatedBombInstance.scene`; the duration is
   * in milliseconds.
   */
  class DrillerData {
    var currentX: int
    var currentY: int
    var isActive: bool
    var hasCompletedDrilling: bool
    var hasBeenTriggeredExternally: bool
    var duration: real
    var bombInScene: bool

    constructor (x: int, y: int, duration: real)
      ensures currentX == x && currentY == y && this.duration == duration
      ensures isActive && !hasCompletedDrilling && !hasBeenTriggeredExternally && bombInScene
    {
      currentX := x;
      currentY := y;
      isActive := true;
      hasCompletedDrilling := false;
      hasBeenTriggeredExternally := false;
      this.duration := duration;
      bombInScene := true;
    }

    /**
     * completeDrilling (the closure handleDrillerBomb schedules after the
     * duration): drilling stops and is marked complete; a second call finds it
     * complete and returns at once, so the call is idempotent.
     */
    method CompleteDrilling()
      modifies this
      ensures !isActive && hasCompletedDrilling
      ensures !old(isActive) && old(hasCompletedDrilling) ==> isActive == old(isActive) && hasCompletedDrilling == old(hasCompletedDrilling)
      ensures currentX == old(currentX) && currentY == old(currentY) && duration == old(duration)
      ensures hasBeenTriggeredExternally == old(hasBeenTriggeredExternally) && bombInScene == old(bombInScene)
    {
      if !isActive && hasCompletedDrilling {
        return;
      }
      isActive := false;
      hasCompletedDrilling := true;
    }
  }
}
