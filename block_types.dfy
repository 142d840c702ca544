/**
 * js/BlockTypes.js: the five ice-block types and their per-type tables of
 * veil colour, alpha and hit points. Lookups of unknown types fall back to
 * the STANDARD entry through JavaScript's `||`.
 */
module BlockTypes {

  import opened Wrappers

  const Standard: string := "standard"
  const Strong: string := "strong"
  const Dynamite: string := "dynamite"
  const Eternal: string := "eternal"
  const Bouncy: string := "bouncy"

  /** Object.values(TYPES), in declaration order. */
  const Types: seq<string> := [Standard, Strong, Dynamite, Eternal, Bouncy]

  const Colors: map<string, int> := map[
    Standard := 0xaaddff, Strong := 0x6666dd, Dynamite := 0xdd3333,
    Eternal := 0x3333cc, Bouncy := 0x00cc44]

  /** Alpha values in hundredths (0.85 is 85). */
  const AlphaPercent: map<string, int> := map[
    Standard := 85, Strong := 85, Dynamite := 85, Eternal := 90, Bouncy := 90]

  const HitPoints: map<string, int> := map[
    Standard := 1, Strong := 2, Dynamite := 1, Eternal := 3, Bouncy := 1]

  /** JavaScript `table[key] || fallback` on a numeric table: a missing key or a 0 entry yields the fallback. */
  function LookupOr(table: map<string, int>, key: string, fallback: int): (r: int)
    ensures key in table && table[key] != 0 ==> r == table[key]
    ensures !(key in table && table[key] != 0) ==> r == fallback
  {
    if key in table && table[key] != 0 then table[key] else fallback
  }

  function GetColor(blockType: string): int
  {
    LookupOr(Colors, blockType, Colors[Standard])
  }

  function GetAlphaPercent(blockType: string): int
  {
    LookupOr(AlphaPercent, blockType, AlphaPercent[Standard])
  }

  function GetHitPoints(blockType: string): int
  {
    LookupOr(HitPoints, blockType, HitPoints[Standard])
  }

  /** isValidType; `None` stands for null or undefined. */
  predicate IsValidType(blockType: Option<string>)
  {
    blockType.Some? && blockType.value in Types
  }

  /** Exactly the five type names are valid; null and undefined are not. */
  lemma ValidTypesExactly(blockType: Option<string>)
    ensures IsValidType(blockType) <==>
            blockType.Some? && blockType.value in {"standard", "strong", "dynamite", "eternal", "bouncy"}
  {
  }

  /** Every valid type has an entry in all three tables, and only the valid types do. */
  lemma TablesCoverTypes(t: string)
    ensures t in Types <==> t in Colors
    ensures t in Types <==> t in AlphaPercent
    ensures t in Types <==> t in HitPoints
  {
  }

  /** The hit points table read through getHitPoints. */
  lemma HitPointsPerType()
    ensures GetHitPoints(Standard) == 1 && GetHitPoints(Strong) == 2 && GetHitPoints(Dynamite) == 1
    ensures GetHitPoints(Eternal) == 3 && GetHitPoints(Bouncy) == 1
  {
  }

  /** Unknown types read the STANDARD entry of every table. */
  lemma UnknownFallsBackToStandard(t: string)
    requires !IsValidType(Some(t))
    ensures GetColor(t) == GetColor(Standard) == 0xaaddff
    ensures GetAlphaPercent(t) == GetAlphaPercent(Standard) == 85
    ensures GetHitPoints(t) == GetHitPoints(Standard) == 1
  {
  }

  /** A valid type reads its own entry (no entry is 0, so `||` never falls through). */
  lemma ValidReadsOwnEntry(t: string)
    requires IsValidType(Some(t))
    ensures GetColor(t) == Colors[t] && GetAlphaPercent(t) == AlphaPercent[t] && GetHitPoints(t) == HitPoints[t]
  {
  }

  /** getHitPoints never returns less than one hit. */
  lemma HitPointsPositive(t: string)
    ensures 1 <= GetHitPoints(t) <= 3
  {
  }
}
