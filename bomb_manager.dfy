/**
 * js/managers/BombManager.js: a per-type bomb inventory with a selected type.
 * Level data supplies counts that are doubled; the driller count is always
 * forced to 6 and, from level 2 on, ricochet to at least 4. Running out of
 * the selected type switches to the first type (in key order) still in stock.
 */
module BombManager {

  import opened Wrappers
  import opened OrderedMap
  import opened BombNames
  import LevelManager

  const BombTypes: seq<string> := [Blast, Piercer, Cluster, Sticky, Shatterer, Driller, Ricochet]

  /** A value found in level data: a number or anything else. */
  type LevelValue = LevelManager.LevelValue

  /** A level configuration; the inventory reads its `bombsAvailable` and `unlockedBomb`. */
  type LevelData = LevelManager.LevelConfig

  /** The fallback table for a level number: counts in the order of BombTypes, and the selected type. */
  function FallbackCounts(level: int): (r: (seq<int>, string))
    ensures |r.0| == |BombTypes|
    ensures r.0[5] == 6
  {
    match level
    case 2 => ([6, 4, 0, 0, 0, 6, 4], Piercer)
    case 3 => ([6, 6, 4, 0, 0, 6, 4], Cluster)
    case 4 => ([6, 6, 4, 4, 0, 6, 4], Sticky)
    case 5 => ([6, 6, 4, 4, 2, 6, 4], Shatterer)
    case _ => ([6, 0, 2, 10, 2, 6, 0], Blast)
  }

  /** The seven type names are pairwise distinct. */
  lemma BombTypesDistinct()
    ensures forall i, j :: 0 <= i < j < |BombTypes| ==> BombTypes[i] != BombTypes[j]
  {
    assert Blast[0] == 'b' && Piercer[0] == 'p' && Cluster[0] == 'c' && Sticky[1] == 't' &&
           Shatterer[1] == 'h' && Sticky[0] == 's' && Shatterer[0] == 's' && Driller[0] == 'd' && Ricochet[0] == 'r';
  }

  /** A fallback table as a JavaScript object literal: the seven types in declaration order. */
  function TableOf(c: seq<int>): (d: Dict<int>)
    requires |c| == 7
    ensures Valid(d) && d.keys == BombTypes
    ensures forall i :: 0 <= i < 7 ==> d.vals[BombTypes[i]] == c[i]
  {
    BombTypesDistinct();
    FromLists(BombTypes, c)
  }

  /** The inventory after one level-data entry has been applied (step 2 of setupBombs). */
  function ApplyEntry(d: Dict<int>, key: string, v: LevelValue): Dict<int>
  {
    if key == "" || !v.Num? then d else Put(d, key, 2 * v.n)
  }

  /** All level-data entries applied in key order, starting from `d`. */
  function ApplyEntries(d: Dict<int>, keys: seq<string>, table: map<string, LevelValue>): Dict<int>
    decreases |keys|
  {
    if |keys| == 0 then d
    else
      var k := keys[|keys| - 1];
      var prev := ApplyEntries(d, keys[..|keys| - 1], table);
      if k in table then ApplyEntry(prev, k, table[k]) else prev
  }

  /** `levelData && levelData.bombsAvailable`. */
  predicate HasBombData(levelData: Option<LevelData>)
  {
    levelData.Some? && levelData.value.bombsAvailable.Some?
  }

  /** The inventory after zeroing and loading (or the fallback), before driller/ricochet are forced. */
  function LoadedCounts(old_: Dict<int>, levelData: Option<LevelData>, level: int): Dict<int>
  {
    if HasBombData(levelData) then
      var data := levelData.value.bombsAvailable.value;
      ApplyEntries(SetAll(old_, 0), data.keys, data.vals)
    else TableOf(FallbackCounts(level).0)
  }

  /** setupBombs needs the ricochet key to exist from level 2 on (Math.max(undefined, 4) is NaN). */
  predicate RicochetDefined(old_: Dict<int>, levelData: Option<LevelData>, level: int)
  {
    level < 2 || Ricochet in LoadedCounts(old_, levelData, level).vals
  }

  /** The inventory after loading, the forced driller count and the ricochet minimum. */
  function SetupCounts(old_: Dict<int>, levelData: Option<LevelData>, level: int): Dict<int>
    requires RicochetDefined(old_, levelData, level)
  {
    var withDriller := Put(LoadedCounts(old_, levelData, level), Driller, 6);
    if level >= 2 then
      var r := withDriller.vals[Ricochet];
      Put(withDriller, Ricochet, if r >= 4 then r else 4)
    else withDriller
  }

  /** `levelData?.unlockedBomb` when it is a non-empty string. */
  function UnlockedOf(levelData: Option<LevelData>): Option<string>
  {
    if levelData.Some? && levelData.value.unlockedBomb.Some? && levelData.value.unlockedBomb.value != ""
    then levelData.value.unlockedBomb else None
  }

  predicate Positive(d: Dict<int>, t: string)
  {
    t in d.vals && d.vals[t] > 0
  }

  /** selectInitialBombType: the counts and the selected type it leaves. */
  function InitialSelection(d: Dict<int>, unlocked: Option<string>): (r: (Dict<int>, string))
  {
    if unlocked.Some? && Positive(d, unlocked.value) then (d, unlocked.value)
    else match FirstPositive(d)
      case Some(t) => (d, t)
      case None => (Put(d, Blast, 6), Blast)
  }

  class BombManager {
    var bombsRemaining: Dict<int>
    var currentBombType: Option<string>

    ghost predicate Valid()
      reads this
    {
      OrderedMap.Valid(bombsRemaining)
    }

    constructor ()
      ensures Valid() && bombsRemaining == Empty() && currentBombType == None
    {
      bombsRemaining := Empty();
      currentBombType := None;
    }

    /** Step 1 of setupBombs: every existing count set to 0, key order kept. */
    method ZeroCounts()
      requires Valid()
      modifies this
      ensures Valid()
      ensures bombsRemaining == SetAll(old(bombsRemaining), 0) && currentBombType == old(currentBombType)
    {
      var keys := bombsRemaining.keys;
      var i := 0;
      while i < |keys|
        invariant 0 <= i <= |keys|
        invariant OrderedMap.Valid(bombsRemaining) && bombsRemaining.keys == keys
        invariant bombsRemaining.vals.Keys == old(bombsRemaining).vals.Keys
        invariant currentBombType == old(currentBombType)
        invariant forall k :: k in bombsRemaining.vals ==>
                    bombsRemaining.vals[k] == (if k in keys[..i] then 0 else old(bombsRemaining).vals[k])
      {
        bombsRemaining := Put(bombsRemaining, keys[i], 0);
        i := i + 1;
      }
      assert keys[..i] == keys;
    }

    /** Step 2 of setupBombs: each entry with a non-empty key and a numeric value stored doubled. */
    method LoadCounts(data: Dict<LevelValue>)
      requires Valid()
      modifies this
      ensures Valid()
      ensures bombsRemaining == ApplyEntries(old(bombsRemaining), data.keys, data.vals)
      ensures currentBombType == old(currentBombType)
    {
      var j := 0;
      while j < |data.keys|
        invariant 0 <= j <= |data.keys|
        invariant OrderedMap.Valid(bombsRemaining)
        invariant currentBombType == old(currentBombType)
        invariant bombsRemaining == ApplyEntries(old(bombsRemaining), data.keys[..j], data.vals)
      {
        var k := data.keys[j];
        assert data.keys[..j + 1][..j] == data.keys[..j];
        if k in data.vals {
          var v := data.vals[k];
          if k != "" && v.Num? {
            bombsRemaining := Put(bombsRemaining, k, v.n * 2);
          }
        }
        j := j + 1;
      }
      assert data.keys[..j] == data.keys;
    }

    /** setupBombs(levelData) with the scene's current level. */
    method SetupBombs(levelData: Option<LevelData>, currentLevel: int) returns (ok: bool)
      requires Valid()
      requires RicochetDefined(bombsRemaining, levelData, currentLevel)
      modifies this
      ensures Valid()
      ensures var (d, t) := InitialSelection(SetupCounts(old(bombsRemaining), levelData, currentLevel), UnlockedOf(levelData));
              bombsRemaining == d && currentBombType == Some(t)
      ensures ok
    {
      ZeroCounts();
      if levelData.Some? && levelData.value.bombsAvailable.Some? {
        LoadCounts(levelData.value.bombsAvailable.value);
      } else {
        SetupFallbackBombs(currentLevel);
      }
      assert bombsRemaining == LoadedCounts(old(bombsRemaining), levelData, currentLevel);
      bombsRemaining := Put(bombsRemaining, Driller, 6);
      if currentLevel >= 2 {
        var r := bombsRemaining.vals[Ricochet];
        bombsRemaining := Put(bombsRemaining, Ricochet, if r >= 4 then r else 4);
      }
      SelectInitialBombType(levelData);
      ok := true;
    }

    /** selectInitialBombType(levelData). */
    method SelectInitialBombType(levelData: Option<LevelData>)
      requires Valid()
      modifies this
      ensures Valid()
      ensures (bombsRemaining, currentBombType.GetOr("")) == InitialSelection(old(bombsRemaining), UnlockedOf(levelData))
      ensures currentBombType.Some?
    {
      var unlocked := UnlockedOf(levelData);
      if unlocked.Some? && unlocked.value in bombsRemaining.vals && bombsRemaining.vals[unlocked.value] > 0 {
        currentBombType := unlocked;
      } else {
        var available := FirstPositiveIn(bombsRemaining.keys, bombsRemaining.vals);
        if available.Some? {
          currentBombType := available;
        } else {
          currentBombType := Some(Blast);
          bombsRemaining := Put(bombsRemaining, Blast, 6);
        }
      }
    }

    /** setupFallbackBombs(levelNumber): the whole inventory is replaced by the level's table. */
    method SetupFallbackBombs(levelNumber: int)
      modifies this
      ensures Valid()
      ensures bombsRemaining == TableOf(FallbackCounts(levelNumber).0)
      ensures currentBombType == Some(FallbackCounts(levelNumber).1)
    {
      var (counts, selected) := FallbackCounts(levelNumber);
      bombsRemaining := TableOf(counts);
      currentBombType := Some(selected);
    }

    /** decrementBombCount(bombType). */
    method DecrementBombCount(bombType: string)
      requires Valid()
      modifies this
      ensures Valid()
      ensures !Positive(old(bombsRemaining), bombType) ==>
                bombsRemaining == old(bombsRemaining) && currentBombType == old(currentBombType)
      ensures Positive(old(bombsRemaining), bombType) ==>
                bombsRemaining == Put(old(bombsRemaining), bombType, old(bombsRemaining).vals[bombType] - 1) &&
                currentBombType == (if bombsRemaining.vals[bombType] == 0 && FirstPositive(bombsRemaining).Some?
                                    then FirstPositive(bombsRemaining) else old(currentBombType))
    {
      if bombType in bombsRemaining.vals && bombsRemaining.vals[bombType] > 0 {
        bombsRemaining := Put(bombsRemaining, bombType, bombsRemaining.vals[bombType] - 1);
        if bombsRemaining.vals[bombType] == 0 {
          var available := FirstPositiveIn(bombsRemaining.keys, bombsRemaining.vals);
          if available.Some? {
            var _ := SelectBombType(available.value);
          }
        }
      }
    }

    /** selectBombType(bombType): only a type in stock can be selected. */
    method SelectBombType(bombType: string) returns (selected: bool)
      modifies this
      ensures selected == Positive(old(bombsRemaining), bombType)
      ensures bombsRemaining == old(bombsRemaining)
      ensures currentBombType == if selected then Some(bombType) else old(currentBombType)
    {
      if bombType in bombsRemaining.vals && bombsRemaining.vals[bombType] > 0 {
        currentBombType := Some(bombType);
        selected := true;
      } else {
        selected := false;
      }
    }
  }

  /** After setupBombs' forced counts the driller count is 6, and from level 2 on ricochet is the larger of its loaded count and 4. */
  lemma SetupForcedCounts(d: Dict<int>, levelData: Option<LevelData>, level: int)
    requires RicochetDefined(d, levelData, level)
    ensures var s := SetupCounts(d, levelData, level);
            Driller in s.vals && s.vals[Driller] == 6 &&
            (level >= 2 ==> var loaded := LoadedCounts(d, levelData, level).vals[Ricochet];
                            Ricochet in s.vals && s.vals[Ricochet] >= 4 && s.vals[Ricochet] >= loaded &&
                            (s.vals[Ricochet] == 4 || s.vals[Ricochet] == loaded))
  {
    BombTypesDistinct();
  }

  /**
   * Because six drillers are always stocked, selectInitialBombType after
   * setupBombs never reaches its blast fallback: the counts are left as set up
   * and the selected type is in stock.
   */
  lemma SetupNeverFallsBack(d: Dict<int>, levelData: Option<LevelData>, level: int)
    requires Valid(d)
    requires RicochetDefined(d, levelData, level)
    ensures var s := SetupCounts(d, levelData, level);
            var (after, t) := InitialSelection(s, UnlockedOf(levelData));
            after == s && Positive(s, t)
  {
    var loaded := LoadedCounts(d, levelData, level);
    assert Valid(loaded) by {
      if HasBombData(levelData) {
        var data := levelData.value.bombsAvailable.value;
        ApplyEntriesValid(SetAll(d, 0), data.keys, data.vals);
      }
    }
    var s := SetupCounts(d, levelData, level);
    SetupForcedCounts(d, levelData, level);
    FirstPositiveIffAny(s);
  }

  /** The type selected by selectInitialBombType is always in stock. */
  lemma InitialSelectionInStock(d: Dict<int>, unlocked: Option<string>)
    ensures var (after, t) := InitialSelection(d, unlocked); Positive(after, t)
    ensures var (after, t) := InitialSelection(d, unlocked);
            unlocked.Some? && Positive(d, unlocked.value) ==> t == unlocked.value && after == d
    ensures var (after, t) := InitialSelection(d, unlocked);
            !(unlocked.Some? && Positive(d, unlocked.value)) && !AnyPositive(d) ==>
              t == Blast && after.vals[Blast] == 6
  {
    var (after, t) := InitialSelection(d, unlocked);
    if !(unlocked.Some? && Positive(d, unlocked.value)) && !AnyPositive(d) {
      assert FirstPositive(d).None?;
    }
  }

  /** Loading level data starts from all-zero counts and stores each numeric entry doubled. */
  lemma {:induction false} LoadDoubles(d: Dict<int>, keys: seq<string>, table: map<string, LevelValue>, k: string)
    requires Valid(d) && forall j :: j in d.vals ==> d.vals[j] == 0
    ensures var r := ApplyEntries(d, keys, table);
            Valid(r) &&
            (k in keys && k in table && k != "" && table[k].Num? ==> k in r.vals && r.vals[k] == 2 * table[k].n) &&
            (!(k in keys && k in table && k != "" && table[k].Num?) ==> Get(r, k) == Get(d, k))
    decreases |keys|
  {
    if |keys| > 0 {
      var last := keys[|keys| - 1];
      assert keys == keys[..|keys| - 1] + [last];
      LoadDoubles(d, keys[..|keys| - 1], table, k);
      ApplyEntriesValid(d, keys[..|keys| - 1], table);
    }
  }

  lemma {:induction false} ApplyEntriesValid(d: Dict<int>, keys: seq<string>, table: map<string, LevelValue>)
    requires Valid(d)
    ensures Valid(ApplyEntries(d, keys, table))
    decreases |keys|
  {
    if |keys| > 0 {
      ApplyEntriesValid(d, keys[..|keys| - 1], table);
    }
  }

  /** Every fallback table holds six drillers, lists the seven types in order, and selects a type. */
  lemma FallbackDriller(level: int)
    ensures var t := TableOf(FallbackCounts(level).0);
            t.keys == BombTypes && t.vals[Driller] == 6
    ensures FallbackCounts(level).1 in BombTypes
  {
  }

  /** Decrementing never makes a count negative and touches only the named type. */
  lemma DecrementKeepsNonNegative(d: Dict<int>, t: string)
    requires NonNegative(d) && Positive(d, t)
    ensures var r := Put(d, t, d.vals[t] - 1);
            NonNegative(r) && r.vals[t] == d.vals[t] - 1 &&
            forall k :: k != t ==> Get(r, k) == Get(d, k)
  {
  }
}
