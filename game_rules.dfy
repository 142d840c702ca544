/**
 * The rules of js/scenes/GameScene.js and js/managers/GameStateManager.js
 * as functions of a record of the scene's game-flow fields: the bomb
 * inventory, the reveal percentage and score, victory (with its five-second
 * delay) and game over (with the game-state manager's wait for the last
 * bomb), and the manager's failsafe. The `Game` module's two classes update
 * their fields exactly as these functions say.
 *
 * The scene is taken after `create()`: its launcher, level manager, audio
 * manager and game-state manager all exist. Whether the launcher reports an
 * active launched bomb (`getActiveLaunchedBomb()`) is the field
 * `activeBomb`. Sounds and UI notifications are recorded as events, except
 * the `updatePercentage` and `updateScore` notifications of a cleared block,
 * the game-over sound and the victory music.
 */
module GameRules {

  import opened Wrappers
  import opened OrderedMap
  import opened BombNames
  import LevelManager

  type LevelValue = LevelManager.LevelValue

  /** The snapshot taken when a level is won, shown when the delay ends. */
  datatype Victory = Victory(completedLevelId: int, starsEarned: int, score: int, revealPercentage: int)

  /** What the scene emits or asks other objects to do. */
  datatype Event =
    | BombCountUpdated(bombType: string, count: int)
    | BombTypeSelected(bombType: string)
    | CreateBomb(bombType: string)
    | ErrorSound
    | ShotsUpdated(shots: int)
    | LaunchSound
    | SpecialClear(change: int)
    | VoiceMessage
    | ShowVictoryScreen(victory: Victory)
    | GameOverShown(percentage: int, targetPercentage: int, score: int)
    | StartCg(levelId: int, starsEarned: int, score: int, revealPercentage: int)
    | Congratulation(text: string)

  /** The game-state manager's four flags. */
  datatype Manager = Manager(isLevelComplete: bool, isGameOver: bool, lastBombActive: bool, waitingForLastBomb: bool)

  /**
   * The level's counters: blocks cleared and created (clearedIceBlocks,
   * totalIceBlocks), the reveal percentage and the one at the last voice
   * feedback, the feedback threshold, score, target percentage, level and
   * the shots left (shotsRemaining).
   */
  datatype Progress = Progress(
    cleared: nat,
    total: nat,
    revealPercentage: int,
    lastReveal: int,
    voiceThreshold: int,
    score: int,
    target: int,
    level: int,
    shotsRemaining: int)

  /** How the level ends: the scene's flags, who set game over, and the pending victory delay with its snapshot. */
  datatype Outcome = Outcome(isGameOver: bool, isLevelComplete: bool, gameOverSetBy: Option<string>, victoryDelay: Option<Victory>)

  /**
   * The scene's `bombState.active`, the launcher's `bombState.active`,
   * whether the launcher reports an active launched bomb
   * (`getActiveLaunchedBomb()`), the scene's `isAiming` (`None` while the
   * scene has never set it) and its `debugMode`.
   */
  datatype Control = Control(bombStateActive: bool, launcherStateActive: bool, activeBomb: bool, isAiming: Option<bool>,
                             debugMode: bool)

  /** `this.isAiming` is truthy. */
  predicate Aiming(c: Control)
  {
    c.isAiming == Some(true)
  }

  /** The scene's game-flow fields together with its game-state manager's. */
  datatype Play = Play(
    bombs: Dict<int>,
    currentBombType: string,
    progress: Progress,
    outcome: Outcome,
    control: Control,
    manager: Manager,
    events: seq<Event>)

  // ---------------------------------------------------------------- inventory

  /** `isAnyBombAvailable`. */
  predicate AnyBomb(p: Play)
  {
    AnyPositive(p.bombs)
  }

  /** `bombsRemaining[t] > 0` (a missing count is not positive). */
  predicate Positive(d: Dict<int>, t: string)
  {
    t in d.vals && d.vals[t] > 0
  }

  /** selectBombType: the type becomes current, a new bomb is asked for unless aiming, and the UI is told. */
  function SelectBombType(p: Play, t: string): (r: Play)
    ensures r.currentBombType == t && r.bombs == p.bombs
    ensures r.events == p.events + (if Aiming(p.control) then [] else [CreateBomb(t)]) + [BombTypeSelected(t)]
    ensures r == p.(currentBombType := t, events := r.events)
  {
    p.(currentBombType := t,
       events := p.events + (if Aiming(p.control) then [] else [CreateBomb(t)]) + [BombTypeSelected(t)])
  }

  /** handleBombTypeSelectionRequest: only a type in stock is selected; otherwise an error sound. */
  function HandleSelectionRequest(p: Play, t: string): (r: Play)
    ensures Positive(p.bombs, t) ==> r == SelectBombType(p, t)
    ensures !Positive(p.bombs, t) ==> r == p.(events := p.events + [ErrorSound])
  {
    if Positive(p.bombs, t) then SelectBombType(p, t) else p.(events := p.events + [ErrorSound])
  }

  /** An object literal with the nine bomb types in declaration order. */
  function Nine(c: seq<int>): (d: Dict<int>)
    requires |c| == 9
    ensures Valid(d) && d.keys == LevelManager.BaseBombKeys
    ensures forall i :: 0 <= i < 9 ==> d.vals[LevelManager.BaseBombKeys[i]] == c[i]
    ensures (forall i :: 0 <= i < 9 ==> c[i] >= 0) ==> NonNegative(d)
  {
    LevelManager.BaseBombKeysDistinct();
    FromLists(LevelManager.BaseBombKeys, c)
  }

  /** resetBombCounts: a fresh inventory of the nine types, all empty but three melters. */
  function ResetCounts(): (d: Dict<int>)
    ensures Valid(d) && d.keys == LevelManager.BaseBombKeys
    ensures forall i :: 0 <= i < 8 ==> d.vals[LevelManager.BaseBombKeys[i]] == 0
    ensures Melter in d.vals && d.vals[Melter] == 3
  {
    var c := ResetTable();
    assert LevelManager.BaseBombKeys[8] == Melter;
    Nine(c)
  }

  /**
   * The scene's game-flow fields once the constructor and the resets at the
   * top of create() have run: the reset inventory with blast current, no
   * block counted, 999 shots, no outcome, both bomb states inactive, debug
   * mode on, and no event yet.
   */
  function NewGameFlow(level: int, targetPercentage: int): Play
  {
    Play(ResetCounts(), Blast, Progress(0, 0, 0, 0, 10, 0, targetPercentage, level, 999), Outcome(false, false, None, None),
         Control(false, false, false, None, true), Manager(false, false, false, false), [])
  }

  /**
   * A new game has every count empty but three melters, blast selected,
   * nothing cleared or scored, 999 shots, neither outcome, the level's
   * target, and nothing for resetGameState to clear.
   */
  lemma NewGameFlowStart(level: int, targetPercentage: int)
    ensures var p := NewGameFlow(level, targetPercentage);
            p.bombs == ResetCounts() && p.currentBombType == Blast && p.events == [] &&
            p.progress.cleared == 0 && p.progress.total == 0 && p.progress.score == 0 && p.progress.revealPercentage == 0 &&
            p.progress.shotsRemaining == 999 && p.progress.target == targetPercentage && p.progress.level == level &&
            !p.outcome.isGameOver && !p.outcome.isLevelComplete && p.outcome.victoryDelay.None? &&
            !p.control.bombStateActive && !Aiming(p.control)
  {
  }

  /** resetGameState finds nothing to clear in a new game. */
  lemma NewGameFlowSettled(level: int, targetPercentage: int)
    ensures ResetGameState(NewGameFlow(level, targetPercentage)) == NewGameFlow(level, targetPercentage)
  {
  }

  /** The counts resetBombCounts writes, in the order of the nine base keys. */
  function ResetTable(): (c: seq<int>)
    ensures |c| == 9 && c[8] == 3
    ensures forall i :: 0 <= i < 8 ==> c[i] == 0
  {
    seq(9, i requires 0 <= i < 9 => if i == 8 then 3 else 0)
  }

  /**
   * setupFallbackBombs' counts by level number, in the order blast, piercer,
   * cluster, sticky, shatterer, driller, ricochet, shrapnel, melter. Every
   * level has four shrapnel and three cluster bombs.
   */
  function FallbackTable(level: int): (c: seq<int>)
    ensures |c| == 9 && c[7] == 4 && c[2] == 3
    ensures forall i :: 0 <= i < 9 ==> c[i] >= 0
  {
    match level
    case 2 => [3, 2, 3, 0, 0, 3, 2, 4, 3]
    case 3 => [3, 3, 3, 0, 0, 3, 2, 4, 3]
    case 4 => [3, 3, 3, 2, 0, 3, 2, 4, 3]
    case 5 => [3, 3, 3, 2, 1, 3, 2, 4, 3]
    case 6 => [2, 0, 3, 2, 0, 1, 0, 4, 3]
    case 7 => [2, 1, 3, 2, 0, 0, 0, 4, 5]
    case _ => [3, 0, 3, 5, 1, 3, 0, 4, 3]
  }

  /** The position (in the order above) of the type setupFallbackBombs selects. */
  function FallbackTypeIndex(level: int): (i: int)
    ensures 0 <= i < 9 && FallbackTable(level)[i] > 0
  {
    match level
    case 2 => 1
    case 3 => 2
    case 4 => 3
    case 5 => 7
    case 6 => 7
    case 7 => 8
    case _ => 0
  }

  /** setupFallbackBombs: a fresh inventory by level and the type it selects. */
  function FallbackCounts(level: int): (r: (Dict<int>, string))
    ensures Valid(r.0) && r.0.keys == LevelManager.BaseBombKeys
    ensures r.1 == LevelManager.BaseBombKeys[FallbackTypeIndex(level)]
  {
    (Nine(FallbackTable(level)), LevelManager.BaseBombKeys[FallbackTypeIndex(level)])
  }

  /** The fallback inventory is never negative, and the type it selects is in stock. */
  lemma FallbackSelectsStocked(level: int)
    ensures NonNegative(FallbackCounts(level).0)
    ensures Positive(FallbackCounts(level).0, FallbackCounts(level).1)
    ensures Get(FallbackCounts(level).0, Shrapnel) == Some(4) && Get(FallbackCounts(level).0, Cluster) == Some(3)
  {
    var c := FallbackTable(level);
    var i := FallbackTypeIndex(level);
    assert Nine(c).vals[LevelManager.BaseBombKeys[i]] == c[i];
    assert LevelManager.BaseBombKeys[7] == Shrapnel && LevelManager.BaseBombKeys[2] == Cluster;
  }

  /** One entry of the level's bomb table: a known type's number is taken as is, a non-number becomes 0. */
  function ApplyLevelEntry(d: Dict<int>, key: string, v: LevelValue): Dict<int>
  {
    if key in LevelManager.BaseBombKeys && v.Num? then Put(d, key, v.n)
    else if !v.Num? then Put(d, key, 0)
    else d
  }

  /** The entries applied in key order. */
  function ApplyLevelEntries(d: Dict<int>, keys: seq<string>, table: map<string, LevelValue>): Dict<int>
    decreases |keys|
  {
    if |keys| == 0 then d
    else
      var k := keys[|keys| - 1];
      var prev := ApplyLevelEntries(d, keys[..|keys| - 1], table);
      if k in table then ApplyLevelEntry(prev, k, table[k]) else prev
  }

  /**
   * setupBombs' counts: the existing keys zeroed and the level's table
   * applied, or the fallback when the level manager gives no table.
   */
  function SetupCounts(bombs: Dict<int>, levelBombs: Option<Dict<LevelValue>>, level: int): Dict<int>
  {
    match levelBombs
    case None => FallbackCounts(level).0
    case Some(table) => ApplyLevelEntries(SetAll(bombs, 0), table.keys, table.vals)
  }

  /** setupBombs' choice of the starting type: the unlocked type if in stock, else the first in stock, else one blast. */
  function InitialType(d: Dict<int>, unlocked: Option<string>): (r: (Dict<int>, string))
  {
    if unlocked.Some? && Positive(d, unlocked.value) then (d, unlocked.value)
    else match FirstPositive(d)
      case Some(t) => (d, t)
      case None => (Put(d, Blast, 1), Blast)
  }

  /** setupBombs with the level manager's table and unlocked type. */
  function SetupBombs(p: Play, levelBombs: Option<Dict<LevelValue>>, unlocked: Option<string>): (r: Play)
    ensures r == p.(bombs := r.bombs, currentBombType := r.currentBombType)
  {
    var chosen := InitialType(SetupCounts(p.bombs, levelBombs, p.progress.level), unlocked);
    p.(bombs := chosen.0, currentBombType := chosen.1)
  }

  /** After setupBombs the selected type is always in stock; with nothing in stock, one blast bomb is given. */
  lemma SetupSelectsStocked(p: Play, levelBombs: Option<Dict<LevelValue>>, unlocked: Option<string>)
    ensures Positive(SetupBombs(p, levelBombs, unlocked).bombs, SetupBombs(p, levelBombs, unlocked).currentBombType)
    ensures var d := SetupCounts(p.bombs, levelBombs, p.progress.level);
            !AnyPositive(d) ==> SetupBombs(p, levelBombs, unlocked).currentBombType == Blast &&
                                SetupBombs(p, levelBombs, unlocked).bombs.vals[Blast] == 1
    ensures unlocked.Some? && Positive(SetupCounts(p.bombs, levelBombs, p.progress.level), unlocked.value) ==>
              SetupBombs(p, levelBombs, unlocked).currentBombType == unlocked.value
  {
    InitialTypeStocked(SetupCounts(p.bombs, levelBombs, p.progress.level), unlocked);
  }

  /** The starting-type choice for any inventory. */
  lemma InitialTypeStocked(d: Dict<int>, unlocked: Option<string>)
    ensures Positive(InitialType(d, unlocked).0, InitialType(d, unlocked).1)
    ensures !AnyPositive(d) ==> InitialType(d, unlocked).1 == Blast && InitialType(d, unlocked).0.vals[Blast] == 1
    ensures unlocked.Some? && Positive(d, unlocked.value) ==> InitialType(d, unlocked).1 == unlocked.value
  {
    var first := FirstPositive(d);
    if first.Some? {
      assert first.value in d.vals && d.vals[first.value] > 0;
    }
  }

  /** Applying entries only adds keys, and keeps a valid table valid. */
  lemma {:induction false} ApplyLevelEntriesValid(d: Dict<int>, keys: seq<string>, table: map<string, LevelValue>)
    requires Valid(d)
    ensures Valid(ApplyLevelEntries(d, keys, table))
    ensures d.vals.Keys <= ApplyLevelEntries(d, keys, table).vals.Keys
    decreases |keys|
  {
    if |keys| > 0 {
      ApplyLevelEntriesValid(d, keys[..|keys| - 1], table);
    }
  }

  /**
   * A known type given a number by the level keeps exactly that number: the
   * scene assigns level counts directly (the inventory manager doubles them).
   */
  lemma {:induction false} LevelCountTaken(d: Dict<int>, keys: seq<string>, table: map<string, LevelValue>, k: string)
    requires forall i, j :: 0 <= i < j < |keys| ==> keys[i] != keys[j]
    requires k in keys && k in table && table[k].Num? && k in LevelManager.BaseBombKeys
    ensures k in ApplyLevelEntries(d, keys, table).vals
    ensures ApplyLevelEntries(d, keys, table).vals[k] == table[k].n
    decreases |keys|
  {
    var last := keys[|keys| - 1];
    var front := keys[..|keys| - 1];
    var prev := ApplyLevelEntries(d, front, table);
    if last != k {
      assert k in front by {
        var i :| 0 <= i < |keys| && keys[i] == k;
        assert i < |keys| - 1;
        assert front[i] == k;
      }
      LevelCountTaken(d, front, table, k);
      if last in table {
        ApplyLevelEntryAt(prev, last, table[last], k);
      }
    } else {
      ApplyLevelEntryAt(prev, last, table[last], k);
    }
  }

  /** A key the level gives no number is 0 afterwards; an existing key the level does not mention is 0 too. */
  lemma {:induction false} OtherCountsZero(d: Dict<int>, keys: seq<string>, table: map<string, LevelValue>, k: string)
    requires forall c :: c in d.vals ==> d.vals[c] == 0
    requires !(k in keys && k in table && table[k].Num? && k in LevelManager.BaseBombKeys)
    ensures k in ApplyLevelEntries(d, keys, table).vals ==> ApplyLevelEntries(d, keys, table).vals[k] == 0
    decreases |keys|
  {
    if |keys| > 0 {
      var front, last := keys[..|keys| - 1], keys[|keys| - 1];
      assert k in front ==> k in keys;
      OtherCountsZero(d, front, table, k);
      var prev := ApplyLevelEntries(d, front, table);
      if last in table {
        ApplyLevelEntryAt(prev, last, table[last], k);
      }
    }
  }

  /** What one entry does to the count of `k`. */
  lemma ApplyLevelEntryAt(d: Dict<int>, key: string, v: LevelValue, k: string)
    ensures var r := ApplyLevelEntry(d, key, v);
            (k != key ==> (k in r.vals <==> k in d.vals) && (k in d.vals ==> r.vals[k] == d.vals[k])) &&
            (k == key && !v.Num? ==> k in r.vals && r.vals[k] == 0) &&
            (k == key && v.Num? && k !in LevelManager.BaseBombKeys ==> r == d) &&
            (k == key && v.Num? && k in LevelManager.BaseBombKeys ==> k in r.vals && r.vals[k] == v.n)
  {
  }

  /**
   * decrementBombCount: a known type in stock loses one bomb and the UI is
   * told; on reaching 0 the first type still in stock is selected, or, with
   * none left, game over is checked. Anything else changes nothing.
   */
  function Decrement(p: Play, t: string): (r: Play)
    ensures !Positive(p.bombs, t) ==> r == p
    ensures Positive(p.bombs, t) ==> r.bombs == Put(p.bombs, t, p.bombs.vals[t] - 1)
  {
    if !Positive(p.bombs, t) then p
    else
      var n := p.bombs.vals[t] - 1;
      var p1 := p.(bombs := Put(p.bombs, t, n), events := p.events + [BombCountUpdated(t, n)]);
      if n != 0 then p1
      else match FirstPositive(p1.bombs)
        case Some(next) => SelectBombType(p1, next)
        case None => SceneCheckGameOver(p1)
  }

  /** A decrement changes only the named count, by exactly one, and never makes a count negative. */
  lemma DecrementOnlyThatType(p: Play, t: string)
    requires NonNegative(p.bombs)
    ensures NonNegative(Decrement(p, t).bombs)
    ensures Decrement(p, t).bombs.keys == p.bombs.keys
    ensures forall k :: k != t ==> (k in Decrement(p, t).bombs.vals <==> k in p.bombs.vals)
    ensures forall k :: k in p.bombs.vals && k != t ==> Decrement(p, t).bombs.vals[k] == p.bombs.vals[k]
    ensures Positive(p.bombs, t) ==> Decrement(p, t).bombs.vals[t] == p.bombs.vals[t] - 1
  {
  }

  /**
   * Running out of a type switches to the first type still in stock; with
   * none left and the level lost (and no bomb in flight), it is game over.
   */
  lemma DecrementToZero(p: Play, t: string)
    requires Valid(p.bombs) && Positive(p.bombs, t) && p.bombs.vals[t] == 1
    ensures var r := Decrement(p, t);
            var left := Put(p.bombs, t, 0);
            (AnyPositive(left) ==> r.currentBombType == FirstPositive(left).value && Positive(r.bombs, r.currentBombType)) &&
            (!AnyPositive(left) && !p.outcome.isGameOver && !p.outcome.isLevelComplete &&
             p.progress.revealPercentage < p.progress.target && !p.control.activeBomb ==>
               r.outcome.isGameOver && r.outcome.gameOverSetBy == Some(GameOverSetter))
  {
    var left := Put(p.bombs, t, 0);
    FirstPositiveIffAny(left);
    var p1 := p.(bombs := left, events := p.events + [BombCountUpdated(t, 0)]);
    assert Decrement(p, t) == match FirstPositive(left)
                                case Some(next) => SelectBombType(p1, next)
                                case None => SceneCheckGameOver(p1);
    if !AnyPositive(left) && !p.outcome.isGameOver && !p.outcome.isLevelComplete &&
       p.progress.revealPercentage < p.progress.target && !p.control.activeBomb {
      assert SceneCheckGameOver(p1) == LoseLevel(p1.(outcome := p1.outcome.(victoryDelay := None)));
    }
  }

  // ------------------------------------------------------------ game over

  const GameOverSetter: string := "checkGameOver"

  /** The scene's game-over effect: flags, the event, and both bomb states stopped. */
  function LoseLevel(p: Play): Play
  {
    p.(outcome := p.outcome.(isGameOver := true, gameOverSetBy := Some(GameOverSetter)),
       events := p.events + [GameOverShown(p.progress.revealPercentage, p.progress.target, p.progress.score)],
       control := p.control.(bombStateActive := false, launcherStateActive := false))
  }

  /**
   * GameScene.checkGameOver: nothing once the level is over; otherwise any
   * victory delay is cancelled, a last bomb still in flight is handed to the
   * game-state manager, and with no bombs and the target missed it is game
   * over, unless the manager is still waiting for a bomb in flight.
   */
  function SceneCheckGameOver(p: Play): (r: Play)
    ensures r.bombs == p.bombs && r.currentBombType == p.currentBombType && r.progress == p.progress
    ensures r.control.activeBomb == p.control.activeBomb && r.control.isAiming == p.control.isAiming
    ensures r.outcome.isLevelComplete == p.outcome.isLevelComplete
    ensures p.outcome.isGameOver ==> r.outcome.isGameOver
    decreases if p.control.activeBomb then 3 else 1
  {
    if p.outcome.isGameOver || p.outcome.isLevelComplete then p
    else
      var p1 := p.(outcome := p.outcome.(victoryDelay := None));
      if !AnyBomb(p1) && p1.control.activeBomb then ManagerCheckGameOver(p1)
      else if !AnyBomb(p1) && p1.progress.revealPercentage < p1.progress.target then
        if p1.manager.waitingForLastBomb && p1.control.activeBomb then p1
        else LoseLevel(p1)
      else p1
  }

  /**
   * GameStateManager.checkGameOver: copy the scene's flags and stop if the
   * level is over; with no bombs and one in flight, wait for it; while
   * waiting, go on only once no bomb is in flight (and stop waiting); then,
   * with no bombs and the target missed, let the scene end the game.
   */
  function ManagerCheckGameOver(p: Play): (r: Play)
    ensures r.bombs == p.bombs && r.currentBombType == p.currentBombType && r.progress == p.progress
    ensures r.control.activeBomb == p.control.activeBomb && r.control.isAiming == p.control.isAiming
    ensures r.outcome.isLevelComplete == p.outcome.isLevelComplete
    ensures p.outcome.isGameOver ==> r.outcome.isGameOver
    decreases 2
  {
    var m := p.manager.(isGameOver := p.outcome.isGameOver, isLevelComplete := p.outcome.isLevelComplete);
    var p1 := p.(manager := m);
    if m.isGameOver || m.isLevelComplete then p1
    else if !AnyBomb(p) && p.control.activeBomb then p1.(manager := m.(lastBombActive := true, waitingForLastBomb := true))
    else if m.waitingForLastBomb && p.control.activeBomb then p1
    else
      var p2 := if m.waitingForLastBomb then p1.(manager := m.(lastBombActive := false, waitingForLastBomb := false)) else p1;
      if !AnyBomb(p) && p.progress.revealPercentage < p.progress.target then SceneCheckGameOver(p2) else p2
  }

  /** The condition under which a level is lost. */
  predicate Lost(p: Play)
  {
    !AnyBomb(p) && p.progress.revealPercentage < p.progress.target && !p.control.activeBomb
  }

  /**
   * Neither check ends a game that is not lost: game over is set only with no
   * bombs left, the target missed and no bomb in flight, and then by the
   * scene's check, with its event.
   */
  lemma {:induction false} GameOverOnlyWhenLost(p: Play)
    ensures var r := SceneCheckGameOver(p);
            !p.outcome.isGameOver && r.outcome.isGameOver ==>
              Lost(p) && r.outcome.gameOverSetBy == Some(GameOverSetter) &&
              r.events == p.events + [GameOverShown(p.progress.revealPercentage, p.progress.target, p.progress.score)] &&
              !r.control.bombStateActive && !r.control.launcherStateActive
    ensures var r := ManagerCheckGameOver(p);
            !p.outcome.isGameOver && r.outcome.isGameOver ==>
              Lost(p) && r.outcome.gameOverSetBy == Some(GameOverSetter) &&
              r.events == p.events + [GameOverShown(p.progress.revealPercentage, p.progress.target, p.progress.score)]
    decreases 4
  {
    if !p.outcome.isGameOver && !p.outcome.isLevelComplete {
      var p1 := p.(outcome := p.outcome.(victoryDelay := None));
      if !AnyBomb(p1) && p1.control.activeBomb {
        assert !ManagerCheckGameOver(p1).outcome.isGameOver;
      }
      var m := p.manager.(isGameOver := p.outcome.isGameOver, isLevelComplete := p.outcome.isLevelComplete);
      var p1m := p.(manager := m);
      var p2 := if m.waitingForLastBomb then p1m.(manager := m.(lastBombActive := false, waitingForLastBomb := false)) else p1m;
      if !AnyBomb(p) && p.progress.revealPercentage < p.progress.target && !p.control.activeBomb {
        assert ManagerCheckGameOver(p) == SceneCheckGameOver(p2);
        assert !p2.control.activeBomb;
      }
    }
  }

  /** A lost level that is still going ends in game over through the scene's check, and any victory delay is dropped. */
  lemma LostLevelEnds(p: Play)
    requires Lost(p) && !p.outcome.isGameOver && !p.outcome.isLevelComplete
    ensures SceneCheckGameOver(p).outcome.isGameOver && SceneCheckGameOver(p).outcome.victoryDelay.None?
  {
  }

  /**
   * The last bomb: with no bombs left but one in flight, the scene does not
   * end the game but leaves the manager waiting; once the bomb has resolved,
   * the manager's next check stops waiting and ends a lost game.
   */
  lemma LastBombDefersGameOver(p: Play)
    requires !AnyBomb(p) && p.control.activeBomb && !p.outcome.isGameOver && !p.outcome.isLevelComplete
    ensures var r := SceneCheckGameOver(p);
            !r.outcome.isGameOver && r.manager.waitingForLastBomb && r.manager.lastBombActive && r.events == p.events
    ensures var r := SceneCheckGameOver(p);
            var later := ManagerCheckGameOver(r.(control := r.control.(activeBomb := false)));
            (p.progress.revealPercentage < p.progress.target ==> later.outcome.isGameOver) &&
            !later.manager.waitingForLastBomb && !later.manager.lastBombActive
  {
  }

  /** While a bomb is in flight, the manager keeps waiting and nothing ends. */
  lemma WaitingHoldsWhileInFlight(p: Play)
    requires p.manager.waitingForLastBomb && p.control.activeBomb
    ensures ManagerCheckGameOver(p).manager.waitingForLastBomb
    ensures ManagerCheckGameOver(p).outcome.isGameOver == p.outcome.isGameOver
  {
  }

  // ------------------------------------------------------------ victory

  /** The star rule: 3 at a full clear, 2 from 92, 1 from 85, else none. */
  function Stars(pct: int): (s: int)
    ensures 0 <= s <= 3
    ensures s == 3 <==> pct >= 100
    ensures s >= 2 <==> pct >= 92
    ensures s >= 1 <==> pct >= 85
  {
    if pct >= 100 then 3 else if pct >= 92 then 2 else if pct >= 85 then 1 else 0
  }

  /** More reveal never earns fewer stars. */
  lemma StarsMonotone(a: int, b: int)
    requires a <= b
    ensures Stars(a) <= Stars(b)
  {
  }

  /** The victory condition: a full clear, or every bomb used with the target reached. */
  predicate Won(p: Play)
  {
    p.progress.revealPercentage >= 100 || (!AnyBomb(p) && p.progress.revealPercentage >= p.progress.target)
  }

  /**
   * GameScene.checkLevelCompletion: nothing once the level is over or a
   * victory is pending; with no bombs but one in flight, wait; a won level
   * starts the victory delay with a snapshot of level, stars, score and
   * reveal; a lost one is checked for game over.
   */
  function SceneCheckLevelCompletion(p: Play): (r: Play)
  {
    if p.outcome.isLevelComplete || p.outcome.isGameOver || p.outcome.victoryDelay.Some? then p
    else if !AnyBomb(p) && p.control.activeBomb then p
    else if Won(p) then p.(outcome := p.outcome.(victoryDelay := Some(VictoryOf(p.progress))))
    else if !AnyBomb(p) && p.progress.revealPercentage < p.progress.target then SceneCheckGameOver(p)
    else p
  }

  /** The snapshot a win records: level, stars, score and reveal. */
  function VictoryOf(g: Progress): Victory
  {
    Victory(g.level, Stars(g.revealPercentage), g.score, g.revealPercentage)
  }

  /** The completion check starts a victory exactly when the level is won and nothing blocks it. */
  lemma CompletionStartsVictory(p: Play)
    ensures var r := SceneCheckLevelCompletion(p);
            (r.outcome.victoryDelay != p.outcome.victoryDelay) <==>
              (!p.outcome.isLevelComplete && !p.outcome.isGameOver && p.outcome.victoryDelay.None? &&
               !(!AnyBomb(p) && p.control.activeBomb) && Won(p))
    ensures var r := SceneCheckLevelCompletion(p);
            r.outcome.victoryDelay != p.outcome.victoryDelay ==>
              r.outcome.victoryDelay == Some(Victory(p.progress.level, Stars(p.progress.revealPercentage), p.progress.score,
                                                     p.progress.revealPercentage)) &&
              !r.outcome.isLevelComplete
    ensures var r := SceneCheckLevelCompletion(p);
            !p.outcome.isGameOver && r.outcome.isGameOver ==> Lost(p)
  {
    GameOverOnlyWhenLost(p);
    if !p.outcome.isLevelComplete && !p.outcome.isGameOver && p.outcome.victoryDelay.None? &&
       !(!AnyBomb(p) && p.control.activeBomb) && !Won(p) && !AnyBomb(p) && p.progress.revealPercentage < p.progress.target {
      assert SceneCheckGameOver(p).outcome.victoryDelay.None?;
    }
  }

  /**
   * The end of the victory delay: the level is complete and the snapshot
   * shown, unless the game ended meanwhile.
   */
  function VictoryDelayEnds(p: Play): (r: Play)
    requires p.outcome.victoryDelay.Some?
    ensures r.outcome.victoryDelay.None?
    ensures r.outcome.isLevelComplete <==> p.outcome.isLevelComplete || !p.outcome.isGameOver
    ensures !p.outcome.isGameOver ==> r.events == p.events + [ShowVictoryScreen(p.outcome.victoryDelay.value)]
    ensures p.outcome.isGameOver ==> r == p.(outcome := p.outcome.(victoryDelay := None))
  {
    var p1 := p.(outcome := p.outcome.(victoryDelay := None));
    if p.outcome.isGameOver then p1
    else p1.(outcome := p1.outcome.(isLevelComplete := true), events := p1.events + [ShowVictoryScreen(p.outcome.victoryDelay.value)])
  }

  /** A game over during the delay cancels the victory: the delay is gone, so it never completes the level. */
  lemma GameOverCancelsVictory(p: Play)
    requires p.outcome.victoryDelay.Some? && !p.outcome.isGameOver
    ensures SceneCheckGameOver(p).outcome.isGameOver ==> SceneCheckGameOver(p).outcome.victoryDelay.None?
  {
  }

  // ------------------------------------------------------------ reveal

  /** `Math.min(100, Math.floor(cleared / total * 100))`, taken exactly; an empty level reads 100. */
  function RevealOf(cleared: nat, total: nat): (r: int)
    ensures 0 <= r <= 100
    ensures total == 0 ==> r == 100
    ensures total > 0 && cleared >= total ==> r == 100
  {
    if total == 0 then 100
    else
      var q := (cleared * 100) / total;
      if q >= 100 then 100
      else
        assert cleared < total by {
          if cleared >= total {
            DivMonotone(total * 100, cleared * 100, total);
          }
        }
        q
  }

  /** Clearing more blocks never lowers the percentage. */
  lemma RevealMonotone(a: nat, b: nat, total: nat)
    requires a <= b
    ensures RevealOf(a, total) <= RevealOf(b, total)
  {
    if total > 0 {
      assert a * 100 <= b * 100;
      DivMonotone(a * 100, b * 100, total);
    }
  }

  lemma DivMonotone(a: nat, b: nat, d: nat)
    requires a <= b && d > 0
    ensures a / d <= b / d
  {
    var qa, qb := a / d, b / d;
    assert qa * d <= a && b < (qb + 1) * d;

  }

  /** One more block cleared: the count, the new percentage and ten more points. */
  function CountCleared(g: Progress): (r: Progress)
    ensures r == g.(cleared := g.cleared + 1, revealPercentage := r.revealPercentage, score := g.score + 10)
    ensures r.revealPercentage == RevealOf(g.cleared + 1, g.total)
  {
    g.(cleared := g.cleared + 1, revealPercentage := RevealOf(g.cleared + 1, g.total), score := g.score + 10)
  }

  /**
   * The voice feedback: a rise of at least the threshold since the last
   * feedback is celebrated (special text from 20, a voice line below) and
   * becomes the new reference.
   */
  function VoiceFeedback(p: Play): Play
  {
    var change := p.progress.revealPercentage - p.progress.lastReveal;
    if change >= p.progress.voiceThreshold then
      p.(events := p.events + [if change >= 20 then SpecialClear(change) else VoiceMessage],
         progress := p.progress.(lastReveal := p.progress.revealPercentage))
    else p
  }

  /** _updateRevealProgress: the block is counted, feedback given, and reaching the target checks for completion. */
  function UpdateReveal(p: Play): Play
  {
    var p2 := VoiceFeedback(p.(progress := CountCleared(p.progress)));
    if p2.progress.revealPercentage >= p2.progress.target then SceneCheckLevelCompletion(p2) else p2
  }

  /** The bookkeeping of one cleared block, whatever follows from it. */
  lemma UpdateRevealCounts(p: Play)
    ensures var r := UpdateReveal(p);
            r.progress.cleared == p.progress.cleared + 1 && r.progress.score == p.progress.score + 10 &&
            r.progress.revealPercentage == RevealOf(p.progress.cleared + 1, p.progress.total) &&
            0 <= r.progress.revealPercentage <= 100 && r.bombs == p.bombs && r.progress.target == p.progress.target
    ensures var r := UpdateReveal(p);
            var change := RevealOf(p.progress.cleared + 1, p.progress.total) - p.progress.lastReveal;
            (change >= p.progress.voiceThreshold ==> r.progress.lastReveal == r.progress.revealPercentage) &&
            (change < p.progress.voiceThreshold ==> r.progress.lastReveal == p.progress.lastReveal)
    ensures var r := UpdateReveal(p);
            !p.outcome.isGameOver && r.outcome.isGameOver ==> Lost(p.(progress := r.progress))
  {
    var p2 := VoiceFeedback(p.(progress := CountCleared(p.progress)));
    CompletionStartsVictory(p2);
  }

  /** Clearing the last block of a level wins it with three stars unless it is already over. */
  lemma FullClearWins(p: Play)
    requires p.progress.total > 0 && p.progress.cleared + 1 >= p.progress.total && p.progress.target <= 100
    requires !p.outcome.isGameOver && !p.outcome.isLevelComplete && p.outcome.victoryDelay.None?
    requires !(!AnyBomb(p) && p.control.activeBomb)
    ensures UpdateReveal(p).outcome.victoryDelay.Some? && UpdateReveal(p).outcome.victoryDelay.value.starsEarned == 3
  {
  }

  // ------------------------------------------------------------ game-state manager

  /** GameStateManager.checkLevelCompletion: the manager's flag is set once the target is reached. */
  function ManagerCheckLevelCompletion(p: Play): (r: Play)
    ensures r.manager.isLevelComplete <==> p.manager.isLevelComplete || p.progress.revealPercentage >= p.progress.target
    ensures r == p.(manager := r.manager)
    ensures r.manager == p.manager.(isLevelComplete := r.manager.isLevelComplete)
  {
    p.(manager := p.manager.(isLevelComplete := p.manager.isLevelComplete || p.progress.revealPercentage >= p.progress.target))
  }

  /** resetGameState: both objects' outcome flags, the setter and the last-bomb flags are cleared. */
  function ResetGameState(p: Play): (r: Play)
    ensures !r.outcome.isGameOver && !r.outcome.isLevelComplete && r.outcome.gameOverSetBy.None?
    ensures r.outcome.victoryDelay == p.outcome.victoryDelay
    ensures r.manager == Manager(false, false, false, false)
    ensures r == p.(outcome := r.outcome, manager := r.manager)
  {
    p.(outcome := p.outcome.(isGameOver := false, isLevelComplete := false, gameOverSetBy := None),
       manager := Manager(false, false, false, false))
  }

  /** After a reset a lost level can be lost again (the guards no longer block). */
  lemma ResetAllowsGameOver(p: Play)
    requires Lost(p)
    ensures SceneCheckGameOver(ResetGameState(p)).outcome.isGameOver
  {
  }

  /** What checkGameState reads besides the flags: the bombs on the scene and the failsafe clock readings, in milliseconds. */
  datatype Watch = Watch(
    ready: bool,
    bombPresent: bool,
    bombLaunched: bool,
    bombIsRicochet: bool,
    bombType: string,
    bombInScene: bool,
    launcherHasBomb: bool,
    lastBombFired: int,
    maxIdleTime: int,
    lastResetTime: int,
    pendingReset: Option<int>,
    shotsRemaining: int,
    paused: bool)

  /** Which failsafe fires. */
  datatype Failsafe = IdleBomb | NoBomb | StalePendingReset

  const NoBombGrace: int := 15000
  const PendingResetGrace: int := 5000

  /** A launched bomb left idle too long, ricochet bombs excepted. */
  predicate IdleLaunched(w: Watch, now: int)
  {
    w.bombPresent && w.bombLaunched && now - w.lastBombFired > w.maxIdleTime
  }

  predicate IsRicochet(w: Watch)
  {
    w.bombIsRicochet || w.bombType == Ricochet
  }

  /** checkGameState's decision at time `now`, from the manager's own flags. */
  function CheckFailsafe(m: Manager, w: Watch, now: int): Option<Failsafe>
  {
    if !w.ready then None
    else if IdleLaunched(w, now) then (if IsRicochet(w) then None else Some(IdleBomb))
    else if !(w.shotsRemaining > 0 && !m.isLevelComplete && !m.isGameOver && !w.paused) then None
    else if (!w.bombPresent || !w.bombInScene) && !w.launcherHasBomb && now - w.lastResetTime > NoBombGrace then Some(NoBomb)
    else if w.pendingReset.Some? && w.pendingReset.value != 0 && now - w.pendingReset.value > PendingResetGrace then Some(StalePendingReset)
    else None
  }

  /** The failsafe's cases: a long-idle ricochet bomb never triggers it, any other long-idle launched bomb does. */
  lemma FailsafeCases(m: Manager, w: Watch, now: int)
    ensures w.ready && IdleLaunched(w, now) && IsRicochet(w) ==> CheckFailsafe(m, w, now).None?
    ensures w.ready && IdleLaunched(w, now) && !IsRicochet(w) ==> CheckFailsafe(m, w, now) == Some(IdleBomb)
    ensures CheckFailsafe(m, w, now) == Some(NoBomb) ==>
              now - w.lastResetTime > NoBombGrace && w.shotsRemaining > 0 && !m.isGameOver && !m.isLevelComplete && !w.paused
    ensures !w.ready ==> CheckFailsafe(m, w, now).None?
  {
  }

  /** checkGameState: a failsafe forces a reset, which re-runs the scene's completion check. */
  function CheckGameState(p: Play, w: Watch, now: int): Play
  {
    if CheckFailsafe(p.manager, w, now).Some? then SceneCheckLevelCompletion(p) else p
  }

  /** A ricochet bomb in flight is never cut short by the idle failsafe. */
  lemma RicochetExempt(p: Play, w: Watch, now: int)
    requires IdleLaunched(w, now) && IsRicochet(w)
    ensures CheckGameState(p, w, now) == p
  {
  }
}
