/**
 * The game-world services the plugin calls but whose code is not part of this model
 * (`WorldPointUtil`, `WildernessChecker`, `ShortestPathPlugin.isInsidePoh`), as the fields of a
 * `World` value that every operation needing them receives. Positions are packed Java ints.
 */
module Worlds {
  datatype World = World(
    /** `WorldPointUtil.packWorldPoint(x, y, plane)`. */
    pack: (int, int, int) -> int,
    /** `WorldPointUtil.unpackWorldX` and `unpackWorldY`. */
    unpackX: int -> int,
    unpackY: int -> int,
    /** `WorldPointUtil.UNDEFINED`, the key of the teleports usable anywhere. */
    undefined: int,
    /** `WorldPointUtil.distanceBetween(a, b)`. */
    distance: (int, int) -> int,
    /** `WorldPointUtil.distanceBetween(a, b, 2)`, the diagonal-weighted distance of the heuristic. */
    diagonalDistance: (int, int) -> int,
    /** `WorldPointUtil.distanceBetween2D(a, b)`. */
    distance2D: (int, int) -> int,
    /** `WildernessChecker.isInWilderness`, `isInLevel20Wilderness` and `isInLevel30Wilderness`. */
    inWilderness: int -> bool,
    inLevel20Wilderness: int -> bool,
    inLevel30Wilderness: int -> bool,
    /** `ShortestPathPlugin.isInsidePoh(x, y)`: inside the player-owned house. */
    insidePoh: (int, int) -> bool)

  /** `Transport.LOCATION_PERMUTATION`: the marker of a row whose origin or destination is left open. */
  function LocationPermutation(w: World): int {
    w.pack(-1, -1, 1)
  }

  /** The tile the house teleport lands on, which every transport inside the house is moved to. */
  function PohLanding(w: World): int {
    w.pack(1923, 5709, 0)
  }

  /** What the unseen code guarantees: distances are never negative and the two markers differ. */
  ghost predicate Valid(w: World) {
    && (forall a, b :: w.distance(a, b) >= 0)
    && (forall a, b :: w.distance2D(a, b) >= 0)
    && (forall a, b :: w.diagonalDistance(a, b) >= 0)
    && w.undefined != LocationPermutation(w)
  }

  /** Whether a packed position lies inside the player-owned house. */
  predicate InPoh(w: World, p: int) {
    w.insidePoh(w.unpackX(p), w.unpackY(p))
  }
}
