/** The fixed tier table and constants of the simulation. */
module Tiers {
  /** The largest tier index; it names the smallest circle. */
  const MAX_TIER: int := 4

  /** A size tier: 0 is the largest circle, MAX_TIER the smallest. */
  type Tier = t: int | 0 <= t <= MAX_TIER

  /** Number of children produced by one split. */
  const SPLIT_COUNT: nat := 4

  /** Bound on each velocity component of a freshly split child. */
  const VELOCITY_RANGE: real := 1.2

  /** Points for tapping away a circle of the smallest tier. */
  const REMOVE_SCORE: nat := 5

  /** The radius table, indexed by tier; a larger tier is a smaller circle. */
  function Radius(t: Tier): (r: real)
    ensures 10.0 <= r <= 80.0
    ensures t == 0 <==> r == 80.0
    ensures t == MAX_TIER <==> r == 10.0
  {
    [80.0, 50.0, 30.0, 18.0, 10.0][t]
  }

  /** Points for a merge whose result has tier `newTier`. */
  function MergeScore(newTier: Tier): (s: nat)
    requires newTier < MAX_TIER
    ensures 20 <= s <= 50
  {
    10 * (5 - newTier)
  }

  /** Smaller tiers are strictly larger circles. */
  lemma RadiusShrinks(t: Tier, u: Tier)
    requires t < u
    ensures Radius(u) < Radius(t)
  {
  }
}
