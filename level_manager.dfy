/**
 * js/LevelManager.js: the level cursor (levels 1 to 30), the per-level
 * default configuration used when a level's files are missing, and the
 * getters that read the current level's configuration with JavaScript `||`
 * fallbacks. Fetching the level files is outside the model: the loaded
 * configurations are whatever `levelData` holds.
 */
module LevelManager {

  import opened Wrappers
  import opened OrderedMap
  import opened BombNames

  const MaxLevels: int := 30
  const DefaultTarget: int := 85
  const DefaultBlockSize: int := 40

  /** The key order of the base configuration's `bombsAvailable`, which every default keeps. */
  const BaseBombKeys: seq<string> := [Blast, Piercer, Cluster, Sticky, Shatterer, Driller, Ricochet, Shrapnel, Melter]

  /** A value found in level data: a number or anything else (string, object, null). */
  datatype LevelValue = Num(n: int) | NotNum

  /**
   * A level configuration object. Absent or null fields are `None`; numeric
   * fields hold numbers only.
   */
  datatype LevelConfig = LevelConfig(
    levelNumber: int,
    chibiImageKey: string,
    victoryBackgroundKey: string,
    backgroundImageKey: string,
    targetPercentage: Option<int>,
    blockSize: Option<int>,
    bombsAvailable: Option<Dict<LevelValue>>,
    unlockedBomb: Option<string>,
    parsedAvailableBombs: Option<Dict<LevelValue>>)

  /** The nine bomb names are pairwise distinct. */
  lemma BaseBombKeysDistinct()
    ensures forall i, j :: 0 <= i < j < |BaseBombKeys| ==> BaseBombKeys[i] != BaseBombKeys[j]
  {
    assert Blast[0] == 'b' && Piercer[0] == 'p' && Cluster[0] == 'c' && Sticky[0] == 's' && Sticky[1] == 't' &&
           Shatterer[0] == 's' && Shatterer[1] == 'h' && Shatterer[2] == 'a' && Driller[0] == 'd' &&
           Ricochet[0] == 'r' && Shrapnel[0] == 's' && Shrapnel[1] == 'h' && Shrapnel[2] == 'r' && Melter[0] == 'm';
  }

  /** An object literal with the base keys in order and the given numbers. */
  function BombTable(c: seq<int>): (d: Dict<LevelValue>)
    requires |c| == 9
    ensures Valid(d) && d.keys == BaseBombKeys
    ensures forall i :: 0 <= i < 9 ==> d.vals[BaseBombKeys[i]] == Num(c[i])
  {
    BaseBombKeysDistinct();
    FromLists(BaseBombKeys, seq(9, i requires 0 <= i < 9 => Num(c[i])))
  }

  /** `defaultBaseLevelConfig.bombsAvailable`. */
  function BaseBombs(): Dict<LevelValue>
  {
    BombTable([3, 0, 3, 5, 1, 0, 0, 4, 3])
  }

  function DigitChar(d: int): char
    requires 0 <= d < 10
  {
    "0123456789"[d]
  }

  /** The decimal text JavaScript's template strings give a non-negative integer. */
  function NatText(n: nat): (s: string)
    ensures |s| > 0 && forall i :: 0 <= i < |s| ==> '0' <= s[i] <= '9'
    decreases n
  {
    if n < 10 then [DigitChar(n)] else NatText(n / 10) + [DigitChar(n % 10)]
  }

  /** The decimal text of an integer. */
  function IntText(n: int): string
  {
    if n < 0 then "-" + NatText(-n) else NatText(n)
  }

  /** The bomb counts createDefaultLevelData gives a level, in base key order. */
  function DefaultCounts(level: int): (c: seq<int>)
    ensures |c| == 9 && c[7] == 4 && c[2] == 3 && c[8] == 3
  {
    if level == 1 then [3, 0, 3, 5, 1, 0, 0, 4, 3]
    else if level == 2 then [3, 2, 3, 0, 0, 0, 2, 4, 3]
    else if 3 <= level <= 5 then [2, 2, 3, 2, 1, 0, 1, 4, 3]
    else [2, 2, 3, 2, 2, 0, 2, 4, 3]
  }

  function DefaultUnlocked(level: int): Option<string>
  {
    if level == 2 then Some(Piercer)
    else if level == 3 then Some(Cluster)
    else if level == 4 then Some(Sticky)
    else if level == 5 then Some(Shatterer)
    else None
  }

  /** createDefaultLevelData(level). */
  function CreateDefaultLevelData(level: int): (c: LevelConfig)
    ensures c.levelNumber == level
    ensures c.chibiImageKey == "chibi_girl" + IntText(level)
    ensures c.victoryBackgroundKey == "victoryBackground" + IntText(level)
    ensures c.backgroundImageKey == "background" + IntText(level)
    ensures c.bombsAvailable.Some? && c.parsedAvailableBombs == c.bombsAvailable
  {
    var bombs := BombTable(DefaultCounts(level));
    LevelConfig(level, "chibi_girl" + IntText(level), "victoryBackground" + IntText(level),
                "background" + IntText(level), Some(DefaultTarget), Some(DefaultBlockSize),
                Some(bombs), DefaultUnlocked(level), Some(bombs))
  }

  /** Every default configuration ends with four shrapnel, three cluster and three melter bombs, over the base keys. */
  lemma DefaultForcedBombs(level: int)
    ensures var b := CreateDefaultLevelData(level).bombsAvailable.value;
            Valid(b) && b.keys == BaseBombKeys &&
            b.vals[Shrapnel] == Num(4) && b.vals[Cluster] == Num(3) && b.vals[Melter] == Num(3)
  {
  }

  /** The bomb each default level unlocks. */
  lemma DefaultUnlockedBombs(level: int)
    ensures var u := CreateDefaultLevelData(level).unlockedBomb;
            (level == 2 ==> u == Some(Piercer)) && (level == 3 ==> u == Some(Cluster)) &&
            (level == 4 ==> u == Some(Sticky)) && (level == 5 ==> u == Some(Shatterer)) &&
            (!(2 <= level <= 5) ==> u.None?)
  {
  }

  function Max0(n: int): (r: int)
    ensures r >= 0 && r >= n && (r == 0 || r == n)
  {
    if n > 0 then n else 0
  }

  const DefaultCountKeys: seq<string> := [Blast, Piercer, Cluster, Sticky, Shatterer, Driller, Ricochet, Melter]

  lemma DefaultCountKeysDistinct()
    ensures forall i, j :: 0 <= i < j < |DefaultCountKeys| ==> DefaultCountKeys[i] != DefaultCountKeys[j]
  {
    assert Blast[0] == 'b' && Piercer[0] == 'p' && Cluster[0] == 'c' && Sticky[0] == 's' && Sticky[1] == 't' &&
           Shatterer[0] == 's' && Shatterer[1] == 'h' && Driller[0] == 'd' && Ricochet[0] == 'r' && Melter[0] == 'm';
  }

  /** The numbers createDefaultBombCounts gives a level, in the order of DefaultCountKeys. */
  function DefaultCountValues(level: int): (c: seq<int>)
    ensures |c| == 8 && forall i :: 0 <= i < 8 ==> c[i] >= 0
  {
    [3, Max0(level - 1), Max0(level - 2), Max0(level - 2), Max0(level - 3), Max0(level - 3),
     if level >= 2 then 2 else 0, 3]
  }

  /** An object literal with the keys of DefaultCountKeys in order and the given numbers. */
  function CountTable(c: seq<int>): (d: Dict<int>)
    requires |c| == 8
    ensures Valid(d) && d.keys == DefaultCountKeys
    ensures forall i :: 0 <= i < 8 ==> d.vals[DefaultCountKeys[i]] == c[i]
  {
    DefaultCountKeysDistinct();
    FromLists(DefaultCountKeys, c)
  }

  /** createDefaultBombCounts(level). */
  function CreateDefaultBombCounts(level: int): (d: Dict<int>)
    ensures Valid(d) && d.keys == DefaultCountKeys
    ensures forall i :: 0 <= i < 8 ==> d.vals[DefaultCountKeys[i]] == DefaultCountValues(level)[i]
  {
    CountTable(DefaultCountValues(level))
  }

  /** No default count is negative. */
  lemma DefaultBombCountsNonNegative(level: int)
    ensures NonNegative(CreateDefaultBombCounts(level))
  {
    var d := CreateDefaultBombCounts(level);
    forall k | k in d.vals
      ensures d.vals[k] >= 0
    {
      var i :| 0 <= i < 8 && DefaultCountKeys[i] == k;
      assert d.vals[DefaultCountKeys[i]] == DefaultCountValues(level)[i];
    }
  }

  /** The counts follow the level: piercers from level 2, cluster and sticky from 3, shatterer and driller from 4. */
  lemma DefaultBombCountsByLevel(level: int)
    ensures var d := CreateDefaultBombCounts(level).vals;
            Blast in d && Piercer in d && Cluster in d && Sticky in d && Shatterer in d &&
            Driller in d && Ricochet in d && Melter in d &&
            d[Blast] == 3 && d[Melter] == 3 &&
            d[Piercer] == Max0(level - 1) && d[Cluster] == Max0(level - 2) && d[Sticky] == Max0(level - 2) &&
            d[Shatterer] == Max0(level - 3) && d[Driller] == Max0(level - 3) &&
            (d[Ricochet] == 2 <==> level >= 2) && (level < 2 ==> d[Ricochet] == 0)
  {
    var d := CreateDefaultBombCounts(level);
    var c := DefaultCountValues(level);
    assert d.vals[DefaultCountKeys[0]] == c[0] && d.vals[DefaultCountKeys[1]] == c[1];
    assert d.vals[DefaultCountKeys[2]] == c[2] && d.vals[DefaultCountKeys[3]] == c[3];
    assert d.vals[DefaultCountKeys[4]] == c[4] && d.vals[DefaultCountKeys[5]] == c[5];
    assert d.vals[DefaultCountKeys[6]] == c[6] && d.vals[DefaultCountKeys[7]] == c[7];
  }

  /** getBombCounts on a configuration: parsed counts first, then `bombsAvailable`, then the base defaults. */
  function BombCountsOf(c: LevelConfig): (r: Dict<LevelValue>)
    ensures c.parsedAvailableBombs.Some? ==> r == c.parsedAvailableBombs.value
    ensures c.parsedAvailableBombs.None? && c.bombsAvailable.Some? ==> r == c.bombsAvailable.value
    ensures c.parsedAvailableBombs.None? && c.bombsAvailable.None? ==> r == BaseBombs()
  {
    match c.parsedAvailableBombs
    case Some(p) => p
    case None => c.bombsAvailable.GetOr(BaseBombs())
  }

  /** getTargetPercentage on a configuration: `targetPercentage || 85`. */
  function TargetOf(c: LevelConfig): (r: int)
    ensures r != 0
    ensures c.targetPercentage.Some? && c.targetPercentage.value != 0 ==> r == c.targetPercentage.value
    ensures c.targetPercentage.None? || c.targetPercentage.value == 0 ==> r == DefaultTarget
  {
    if c.targetPercentage.Some? && c.targetPercentage.value != 0 then c.targetPercentage.value else DefaultTarget
  }

  /** getBlockSize on a configuration: `blockSize || 40`. */
  function BlockSizeOf(c: LevelConfig): (r: int)
    ensures r != 0
    ensures c.blockSize.Some? && c.blockSize.value != 0 ==> r == c.blockSize.value
    ensures c.blockSize.None? || c.blockSize.value == 0 ==> r == DefaultBlockSize
  {
    if c.blockSize.Some? && c.blockSize.value != 0 then c.blockSize.value else DefaultBlockSize
  }

  /** getUnlockedBombType on a configuration: `unlockedBomb || null`. */
  function UnlockedOf(c: LevelConfig): (r: Option<string>)
    ensures r.Some? <==> c.unlockedBomb.Some? && c.unlockedBomb.value != ""
    ensures r.Some? ==> r == c.unlockedBomb
  {
    if c.unlockedBomb.Some? && c.unlockedBomb.value != "" then c.unlockedBomb else None
  }

  /** A default configuration reads back its own parsed counts, target 85 and block size 40. */
  lemma DefaultGetters(level: int)
    ensures var c := CreateDefaultLevelData(level);
            BombCountsOf(c) == c.bombsAvailable.value && TargetOf(c) == 85 && BlockSizeOf(c) == 40 &&
            UnlockedOf(c) == DefaultUnlocked(level)
  {
  }

  /** setLevel(level) on the cursor: the new cursor and the returned flag. */
  function SetLevelStep(current: int, level: int): (r: (int, bool))
    ensures r.1 <==> 1 <= level <= MaxLevels
    ensures r.0 == if r.1 then level else current
  {
    if 1 <= level <= MaxLevels then (level, true) else (current, false)
  }

  /** nextLevel on the cursor. */
  function NextLevelStep(current: int): (r: (int, bool))
    ensures r.1 <==> current < MaxLevels
    ensures r.0 == if r.1 then current + 1 else current
  {
    if current < MaxLevels then (current + 1, true) else (current, false)
  }

  /** Both cursor moves keep a cursor in 1..30 inside 1..30. */
  lemma CursorStaysInRange(current: int, level: int)
    requires 1 <= current <= MaxLevels
    ensures 1 <= SetLevelStep(current, level).0 <= MaxLevels
    ensures 1 <= NextLevelStep(current).0 <= MaxLevels
    ensures NextLevelStep(current).1 == (current < MaxLevels)
  {
  }

  class LevelManager {
    var currentLevel: int
    var levelData: map<int, LevelConfig>
    var defaultLevelData: map<int, LevelConfig>

    ghost predicate Valid()
      reads this
    {
      1 <= currentLevel <= MaxLevels
    }

    constructor ()
      ensures Valid()
      ensures currentLevel == 1 && levelData == map[] && defaultLevelData == map[1 := CreateDefaultLevelData(1)]
    {
      currentLevel := 1;
      levelData := map[];
      defaultLevelData := map[1 := CreateDefaultLevelData(1)];
    }

    method SetLevel(level: int) returns (ok: bool)
      requires Valid()
      modifies this
      ensures Valid()
      ensures (currentLevel, ok) == SetLevelStep(old(currentLevel), level)
      ensures levelData == old(levelData) && defaultLevelData == old(defaultLevelData)
    {
      if level >= 1 && level <= MaxLevels {
        currentLevel := level;
        return true;
      }
      return false;
    }

    method NextLevel() returns (ok: bool)
      requires Valid()
      modifies this
      ensures Valid()
      ensures (currentLevel, ok) == NextLevelStep(old(currentLevel))
      ensures levelData == old(levelData) && defaultLevelData == old(defaultLevelData)
    {
      if currentLevel < MaxLevels {
        currentLevel := currentLevel + 1;
        return true;
      }
      return false;
    }

    function HasNextLevel(): (r: bool)
      reads this
      ensures r <==> NextLevelStep(currentLevel).1
    {
      currentLevel < MaxLevels
    }

    /**
     * getCurrentLevelData: the loaded configuration when there is one;
     * otherwise the cached default, created on the first request.
     */
    method GetCurrentLevelData() returns (c: LevelConfig)
      modifies this
      ensures currentLevel == old(currentLevel) && levelData == old(levelData)
      ensures currentLevel in levelData ==> c == levelData[currentLevel] && defaultLevelData == old(defaultLevelData)
      ensures currentLevel !in levelData ==>
                defaultLevelData == (if currentLevel in old(defaultLevelData) then old(defaultLevelData)
                                     else old(defaultLevelData)[currentLevel := CreateDefaultLevelData(currentLevel)]) &&
                currentLevel in defaultLevelData && c == defaultLevelData[currentLevel]
    {
      if currentLevel in levelData {
        return levelData[currentLevel];
      }
      if currentLevel !in defaultLevelData {
        defaultLevelData := defaultLevelData[currentLevel := CreateDefaultLevelData(currentLevel)];
      }
      c := defaultLevelData[currentLevel];
    }

    method GetBombCounts() returns (r: Dict<LevelValue>)
      modifies this
      ensures currentLevel == old(currentLevel) && levelData == old(levelData)
      ensures currentLevel in levelData ==> r == BombCountsOf(levelData[currentLevel])
      ensures currentLevel !in levelData ==> currentLevel in defaultLevelData &&
                                             r == BombCountsOf(defaultLevelData[currentLevel])
    {
      var c := GetCurrentLevelData();
      r := BombCountsOf(c);
    }

    method GetTargetPercentage() returns (r: int)
      modifies this
      ensures currentLevel == old(currentLevel) && levelData == old(levelData)
      ensures currentLevel in levelData ==> r == TargetOf(levelData[currentLevel])
      ensures currentLevel !in levelData ==> currentLevel in defaultLevelData &&
                                             r == TargetOf(defaultLevelData[currentLevel])
    {
      var c := GetCurrentLevelData();
      r := TargetOf(c);
    }

    method GetBlockSize() returns (r: int)
      modifies this
      ensures currentLevel == old(currentLevel) && levelData == old(levelData)
      ensures currentLevel in levelData ==> r == BlockSizeOf(levelData[currentLevel])
      ensures currentLevel !in levelData ==> currentLevel in defaultLevelData &&
                                             r == BlockSizeOf(defaultLevelData[currentLevel])
    {
      var c := GetCurrentLevelData();
      r := BlockSizeOf(c);
    }

    method GetUnlockedBombType() returns (r: Option<string>)
      modifies this
      ensures currentLevel == old(currentLevel) && levelData == old(levelData)
      ensures currentLevel in levelData ==> r == UnlockedOf(levelData[currentLevel])
      ensures currentLevel !in levelData ==> currentLevel in defaultLevelData &&
                                             r == UnlockedOf(defaultLevelData[currentLevel])
    {
      var c := GetCurrentLevelData();
      r := UnlockedOf(c);
    }
  }
}
