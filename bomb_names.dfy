/**
 * The bomb type names shared by the game scene (`BOMB_TYPES` in
 * js/scenes/GameScene.js), the bomb inventory, the level files and the
 * collision rules.
 */
module BombNames {

  const Blast: string := "blast_bomb"
  const Piercer: string := "piercer_bomb"
  const Cluster: string := "cluster_bomb"
  const Sticky: string := "sticky_bomb"
  const Shatterer: string := "shatterer_bomb"
  const Driller: string := "driller_bomb"
  const Ricochet: string := "ricochet_bomb"
  const Shrapnel: string := "shrapnel_bomb"
  const Melter: string := "melter_bomb"
}
