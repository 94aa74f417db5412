# Blob-merge simulation engine, modelled in Dafny

This project models the simulation engine of a small browser arcade game
(`main.js`). Circles ("blobs") of five size tiers move in a rectangle and
bounce off its walls. Two colliding circles of the same tier merge into one
circle a tier larger, or end the game when both are of the largest tier. A
tap splits the topmost circle under the tapped point into four smaller ones, or
removes it when it is already of the smallest tier.

Layout, one module per component:

- `tiers.dfy` (`Tiers`): the radius table, the tier type 0..4, `SPLIT_COUNT`,
  `VELOCITY_RANGE` and the score constants.
- `circles.dfy` (`Circles`): the `Circle`, `Point` and `Draw` records, the
  `World` value (circles, score, game-over flag), the collision and hit tests,
  and `RemoveAt`, which models `Array.prototype.splice(k, 1)`.
- `physics.dfy` (`Physics`): movement, wall clamping and reflection, and the
  rescale arithmetic of a resize.
- `merge.dfy` (`Merge`): the row-major pair scan, one merge check
  (`MergePass`), and the do-while driver run to a fixpoint (`Settle`).
- `split.dfy` (`Split`): the reverse-order hit test, the children of a split,
  and the effect of a tap on a running game (`TapActive`).
- `session.dfy` (`Game`): the `Session` class, with fields `circles`, `score`,
  `gameOver`, `width` and `height` and methods `Reset`, `StepPhysics`,
  `MergeCheck`, `Update`, `Tick`, `SplitCircle`, `Tap` and `Resize`. It also
  holds the state-machine functions `NewGame`, `TickStep` and `TapStep`, and
  worked scenarios.

Every `Session` method updates its fields with loops and assignments, as the
source does. Its `ensures` ties the new state to a pure function of the old
`World`. The properties are proved as lemmas about those functions. The two
scans (`FindFirstCollision`, `FindTopHit`) are loop methods over the circle
sequence, each proved equal to a recursive reference function (`ScanFrom`,
`LastHit`).

Coordinates and velocities are `real`. Canvas dimensions are `nat`, because an
HTML canvas has integer width and height. Tiers outside 0..4 cannot occur:
`Tier` is a subset type. `ChildOf` demands tier < 4 and `Merged` demands
tier > 0, and the verifier discharges both at every call site.

Two modelling notes:

- The code clamps circles against the walls only during the physics step.
  A circle that a merge creates later in the same tick is not clamped, so it
  can end the tick partly outside the walls. `MergedCircleMayLeaveBounds`
  gives such a tick. Containment is therefore proved for `Stepped`, not for
  a whole tick.
- When the old canvas dimension is 0, `resizeCanvas` falls back to the
  window size. That still gives a scale factor of 1, the same as `onResize`,
  so one `Resize` models both.
- A resize from a non-zero dimension to 0 has factor 0, so every coordinate
  on that axis becomes 0. A later resize away from 0 has factor 1, so the
  circles stay on that line.

## Model

| member | source | states |
|---|---|---|
| Tiers.Radius | main.js:5 | radii lie in [10, 80]; tier 0 is exactly the 80 circle and tier 4 exactly the 10 circle |
| Tiers.RadiusShrinks | main.js:5 | a larger tier index always means a strictly smaller radius |
| Tiers.MergeScore | main.js:201 | a merge result of tier ≤ 3 earns between 20 and 50 points, never less than 20 |
| Circles.Collides | main.js:178-186 | circles of different tiers never collide; two of one tier at the same spot always do |
| Circles.CollidesSymmetric | main.js:178-186 | collision does not depend on the order of the two circles |
| Circles.Hits | main.js:86-89 | a tap at a circle's centre always hits it |
| Circles.RemoveAt | main.js:203-204 | splice(k, 1) drops one element and shifts only the elements after k down by one |
| Physics.Reflect | main.js:155-161 | one axis: the coordinate ends in [r, limit − r] when limit ≥ 2r; speed is kept; the velocity points inward after a left or right clamp; an in-range coordinate is untouched |
| Physics.WallCollision | main.js:152-170 | tier and speed per axis are kept; a circle whose tier fits the canvas ends inside it; a circle already inside is unchanged |
| Physics.StepCircle | main.js:140-143 | one circle moved by its velocity then wall-clamped: tier and per-axis speed kept, inside the walls when its tier fits, and simply moved by its velocity when the move keeps it inside |
| Physics.Stepped | main.js:139-145 | after the movement loop the collection has the same length, and every circle keeps its tier and per-axis speed and lies inside the walls when its tier fits the canvas |
| Physics.WallCollisionIdempotent | main.js:152-170 | a second wall collision changes nothing |
| Physics.ScaleFactor | main.js:51-52 | the factor times the old dimension is the new dimension; it is 1 when the old dimension is 0 |
| Physics.ScaledCircle | main.js:57-60 | one circle after a resize: x / width and y / height are the same before and after when both dimensions are non-zero; a zero old dimension leaves that coordinate as it was; a non-zero dimension resized to 0 sends it to 0; velocity and tier untouched |
| Physics.Rescaled | main.js:51-60 | every circle of the collection keeps its position relative to the canvas in the sense of ScaledCircle, including the collapse to 0 on an axis resized to 0; length, velocities and tiers unchanged |
| Physics.RescaledByFactors | main.js:57-60 | scaling each circle by the two factors, as the forEach does, yields exactly the rescaled collection |
| Merge.ScanFrom | main.js:173-186 | the scan resumed at (i, j) returns a colliding same-tier pair at or after (i, j), and no pair between (i, j) and it collides; no result means no pair from (i, j) on collides |
| Merge.FirstCollidingPair | main.js:173-210 | the pair found is the first colliding one in row-major order; none is found exactly when no pair collides |
| Merge.FirstPairIsScanned | main.js:173-186 | the scan returns (i, j) if and only if (i, j) is the first colliding pair |
| Merge.FindFirstCollision | main.js:173-186 | the nested index loops with early return yield exactly the first colliding pair |
| Merge.Merged | main.js:192-199 | the merged circle has tier t − 1 and a larger radius, lies equally far from both parents at half their distance, and moves at their mean velocity |
| Merge.MergePass | main.js:172-211 | score never drops; a merge removes exactly one circle and keeps the game-over flag; no merge leaves circles and score unchanged |
| Merge.SpliceKeepsOrder | main.js:203-204 | removing j then i (i < j) keeps all other circles in their relative order |
| Merge.MergePassMerges | main.js:192-206 | merging the first pair at tier t > 0: one circle fewer, the others in order, the merged circle appended last with tier t − 1 at the midpoint with the mean velocity, score + 10·(5 − (t − 1)) |
| Merge.MergePassEndsGame | main.js:186-190 | a first colliding pair at tier 0 sets game over, reports no merge, and leaves circles and score unchanged |
| Merge.MergePassIdle | main.js:173-210 | in a running game the merge check changes nothing if and only if no pair collides |
| Merge.Settle | main.js:146-149 | the do-while driver terminates (each merge removes a circle), never lowers score and never adds a circle |
| Merge.SettleReachesFixpoint | main.js:146-149 | the driver stops at a fixpoint: no pair collides, or the game is over with a tier-0 first pair left in place |
| Split.TopHit | main.js:84-89 | the index acted on is the highest one whose circle contains the point, and none is returned exactly when no circle contains it |
| Split.LastHit | main.js:84-89 | the index returned is the highest one whose circle contains the point; none is returned exactly when no circle contains it |
| Split.FindTopHit | main.js:84-98 | the descending loop with break acts on exactly the topmost circle containing the point |
| Split.TapPicksTopmost | main.js:84-96 | a circle containing the point is the one tapped if and only if no later circle contains it |
| Split.Children | main.js:124-136 | one child per draw, in push order, each built from its own draw |
| Split.ChildOf | main.js:121-135 | a child is one tier smaller (a smaller radius), carries the drawn velocity, and for a valid draw sits exactly 0.8 of its radius from the parent's centre with velocity components in [−1.2, 1.2) |
| Split.TapActive | main.js:84-98 | a tap on a running game keeps it running; it adds 0 or 5 points; +5 removes exactly one circle; otherwise the count is unchanged (a miss) or grows by 3 (a split) |
| Split.TapRemovesSmallest | main.js:89-92 | tapping a tier-4 circle removes only it, count − 1, score + 5 |
| Split.TapSplits | main.js:93-94 | tapping a larger circle: count + 3, the others keep their order, the 4 appended circles are exactly the children built from the draws, of tier + 1, score unchanged |
| Split.TapMisses | main.js:84-98 | a tap that hits no circle changes nothing |
| Game.NewGame | main.js:63-69 | one still tier-0 circle at the canvas centre (inside the walls when the canvas is large enough), score 0, running, no colliding pair |
| Game.TickStep | main.js:248-251 | a tick while the game is over changes nothing; a tick never lowers the score and never adds circles |
| Game.TapStep | main.js:79-98 | after any tap the game is running; a tap while over yields one circle and score 0; a tap on a running game never lowers the score |
| Game.GameOverIsAbsorbing | main.js:248-251 | while the game is over a tick changes nothing and a tap starts a new game |
| Game.ScoreNeverDecreases | main.js:201 | in a running game neither a tick nor a tap lowers the score |
| Game.TickSettles | main.js:139-150 | a tick of a running game never adds circles and ends at a merge fixpoint or game over on a tier-0 pair |
| Game.ScenarioNewGame | main.js:63-69 | an 800×600 new game is the single circle (400, 300), tier 0, score 0 |
| Game.ScenarioFirstSplit | main.js:84-136 | tapping the centre of a new game yields 4 tier-1 circles, each 40 from (400, 300), and no points |
| Game.ScenarioSmallMerge | main.js:192-205 | two tier-4 circles 15 apart merge into one tier-3 circle at the midpoint with the mean velocity, for 20 points |
| Game.ScenarioGameOver | main.js:186-190 | two tier-0 circles 100 apart end the game and stay as they are |
| Game.ScenarioTapSmallest | main.js:89-92 | tapping a lone tier-4 circle at its centre empties the collection and adds 5 points |
| Game.MergedCircleMayLeaveBounds | main.js:139-150 | a tick on two still, in-bounds tier-4 circles ends with one tier-3 circle outside the walls |
| Game.Session.constructor | main.js:36-38 | start-up sets the canvas size and a new game |
| Game.Session.Reset | main.js:63-69 | the state becomes the new game for the current canvas size |
| Game.Session.StepPhysics | main.js:139-145 | the circles become the movement-plus-wall-collision image of the old circles; nothing else changes |
| Game.Session.MergeCheck | main.js:172-211 | the new state and result are those of one merge check on the old state |
| Game.Session.Update | main.js:139-150 | the physics step, then the merge driver to its fixpoint |
| Game.Session.Tick | main.js:248-251 | an update while running; nothing changes once the game is over |
| Game.Session.SplitCircle | main.js:119-137 | the parent is spliced out and its 4 children are appended in draw order; score and flag unchanged |
| Game.Session.Tap | main.js:79-98 | a new game when over; otherwise removal or split of the topmost circle hit, or nothing |
| Game.Session.Resize | main.js:45-61 | the circles become the rescaled collection for the old and new size (factor 1 for a zero old dimension); the new size is adopted; score and flag unchanged |

## Left out

- Rendering (`render`, `drawCircle`) and the `COLORS` table: canvas drawing only.
- `init`'s event wiring, the touch-event filtering at the start of
  `handlePointer`, and `getPointerPosition`: browser I/O and device-to-world
  coordinate mapping. `Tap` takes a world-space point.
- `requestAnimationFrame`: the host's frame scheduler. `mainLoop` is modelled
  as `Tick`.
- `Math.random`, `Math.cos` and `Math.sin` in `splitCircle`. Each child's
  random numbers come in as a caller-supplied `Draw`: the cosine and sine of
  its angle and its two velocity components. `Session.Tap` requires four
  draws, each satisfying `ValidDraw` (cos² + sin² = 1, velocities in
  [−1.2, 1.2)), which is what the random source guarantees.
- IEEE floating point: coordinates are mathematical reals. Rounding, and the
  floating-point tolerance of rescaling, are not modelled.
- `window.innerWidth` and `window.innerHeight`: host reads. `Resize` takes the
  new dimensions as parameters.
- Object identity of circles: circles are values in a sequence, not shared
  objects. Nothing else holds a reference to a circle, so no aliasing is lost.
