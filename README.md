# ARFlock flocking core, modelled in Dafny

ARFlock is an iOS augmented-reality app that flies a flock of ships ("boids") around the viewer.
Its algorithmic core has three parts, and each one is modelled here over exact reals:

- `vectors.dfy` (module `Vectors`) is the app's extension of SceneKit's `SCNVector3`. It covers
  component-wise and scalar `+ - * /` with their compound forms, negation, dot and cross
  products, length, distance, normalisation, the `SCNVector3…` free functions and
  `SCNVector3Project`. The vector is the value type `Vec3`. The operators are functions. The
  `inout` compound operators and the `mutating` methods (`negated()`, `normalize()`) are
  methods that return the new value of their operand.
- `ship.dfy` (module `Ships`) is the `Ship` class. It is a mutable record with the ship's scene
  node, its velocity (default (1,1,1)) and `prevDir` (default (0,1,0)). The node is the value
  `Node(position, rotation)`: its position and its axis–angle rotation are the only node
  fields the flock code touches.
- `flock_rules.dfy` (module `FlockRules`) holds the per-frame rules of `ViewController` as
  functions of the flock's state (`seq<ShipState>`):
  - the perceived centre and perceived velocity (`Sum`);
  - cohesion (`FlyCenterOfMass`), separation (`Separation`, with its reference definition
    `PushAway`), alignment (`MatchSpeedWithOtherShips`) and bounding (`Rebound`);
  - the speed limit (`Limit`) and the rotation (`Orientation`);
  - one ship's turn (`Step`) and the whole frame (`Frame`).
- `flock_controller.dfy` (module `FlockController`) is the view controller's imperative side.
  It holds the list of `Ship` objects, the loop that creates them, and the frame update
  `renderer(_:updateAtTime:)` with its helpers, which read or write the ships in place. Each
  method is proved to compute the matching function of `FlockRules`.

The frame update works in two passes:
1. It sums all positions and all velocities once, before any ship moves.
2. It updates the ships one at a time, in list order. Each ship's new velocity is
   `limit(v + 0.01·cohesion + 0.01·separation + 0.01·alignment + bounding)`. Its position
   moves by that velocity. Its rotation comes from its velocity before the update.

Nothing is copied before the second pass. So a ship's separation term sees the ships earlier in
the list at their new positions and the later ones at their old positions (`FrameTurn`,
`FrameShip`). The cohesion term divides the sum of ALL positions, the ship's own included, by
`count - 1` (`FlyCenterOfMassLaws`). The model follows the code on both points. It does not
follow the textbook boids rule, which uses a snapshot of the flock and the centroid of the
other ships.

`sqrtf`, the C library's square root, is not defined in the model. Every member that needs it
takes a parameter `sqrt: real -> real` and requires `IsSqrt(sqrt)`: for every non-negative
input it returns a non-negative value whose square is that input. All laws about lengths are
proved from that property alone.

## Model

| member | source | states |
|---|---|---|
| `Vectors.Add` | ARFlock/SCNVector3+Extensions.swift:79-81 | definition of vector `+`, component-wise; laws in `AddSubCancel` |
| `Vectors.Sub` | ARFlock/SCNVector3+Extensions.swift:94-96 | definition of vector `-`, component-wise; laws in `AddSubCancel` and `DistanceLaws` |
| `Vectors.Mul` | ARFlock/SCNVector3+Extensions.swift:109-111 | definition of vector `*`, component-wise; laws in `MulDivCancel` |
| `Vectors.Scale` | ARFlock/SCNVector3+Extensions.swift:125-127 | definition of `vector * scalar`; laws in `ScaleDivCancel`, `DotScale` and `LengthScale` |
| `Vectors.Div` | ARFlock/SCNVector3+Extensions.swift:140-142 | definition of vector `/`, component-wise, with non-zero divisor components; laws in `MulDivCancel` |
| `Vectors.DivScalar` | ARFlock/SCNVector3+Extensions.swift:155-157 | definition of `vector / scalar`, with a non-zero scalar; laws in `ScaleDivCancel` and `DivScalarIsScale` |
| `Vectors.Negate` | ARFlock/SCNVector3+Extensions.swift:18-20 | definition of `negate()` as `v * -1`; laws in `NegateLaws` |
| `Vectors.Vector3Negate` | ARFlock/SCNVector3+Extensions.swift:169-171 | definition of `SCNVector3Negate`; agreement with `negate()` in `NegateLaws` |
| `Vectors.Dot` | ARFlock/SCNVector3+Extensions.swift:63-65 | definition of `dot(_:)`; laws in `DotLaws` and `DotSelf` |
| `Vectors.Cross` | ARFlock/SCNVector3+Extensions.swift:70-72 | definition of `cross(_:)`; laws in `CrossLaws` and `CrossOrthogonal` |
| `Vectors.Vector3DotProduct` | ARFlock/SCNVector3+Extensions.swift:198-200 | definition of `SCNVector3DotProduct`; agreement with `dot(_:)` in `DotLaws` |
| `Vectors.Vector3CrossProduct` | ARFlock/SCNVector3+Extensions.swift:205-207 | definition of `SCNVector3CrossProduct`; agreement with `cross(_:)` in `CrossLaws` |
| `Vectors.Distance` | ARFlock/SCNVector3+Extensions.swift:56-58 | definition of `distance(_:)` as the length of `self - vector`; laws in `DistanceLaws` |
| `Vectors.Vector3Distance` | ARFlock/SCNVector3+Extensions.swift:184-186 | definition of `SCNVector3Distance` as the length of `end - start`; agreement in `DistanceLaws` |
| `Vectors.Normalized` | ARFlock/SCNVector3+Extensions.swift:41-43 | definition of `normalized()` for a non-zero vector; laws in `NormalizedIsUnit` |
| `Vectors.Vector3Normalize` | ARFlock/SCNVector3+Extensions.swift:191-193 | definition of `SCNVector3Normalize` for a non-zero vector; agreement in `NormalizedIsUnit` |
| `Vectors.Vector3Project` | ARFlock/SCNVector3+Extensions.swift:213-217 | definition of `SCNVector3Project` for a non-zero projection vector; laws in `ProjectOrthogonal` and `ProjectIdempotent` |
| `FlockRules.Sum` | ARFlock/ViewController.swift:127-132 | definition of the perceived sums, added first to last; laws in `SumAppend`, `SumRotate` and `TwoShipAggregates` |
| `FlockRules.FlyCenterOfMass` | ARFlock/ViewController.swift:162-165 | definition of `flyCenterOfMass`; laws in `FlyCenterOfMassLaws` |
| `FlockRules.MatchSpeedWithOtherShips` | ARFlock/ViewController.swift:180-183 | definition of `matchSpeedWithOtherShips`; laws in `MatchSpeedLaws` |
| `FlockRules.AxisRebound` | ARFlock/ViewController.swift:193-199 | definition of one axis of `boundPositions`; laws in `ReboundLaws` |
| `FlockRules.Rebound` | ARFlock/ViewController.swift:185-218 | definition of `boundPositions` on the box constants; laws in `ReboundLaws` |
| `FlockRules.SeparationUpTo` | ARFlock/ViewController.swift:168-176 | definition of the `forceAway` accumulated by the first k iterations of the loop; laws in `SeparationIsPushAway` |
| `FlockRules.Separation` | ARFlock/ViewController.swift:167-178 | definition of `keepASmallDistance`; laws in `SeparationIsPushAway` and `SeparationNoNeighbour` |
| `FlockRules.Limit` | ARFlock/ViewController.swift:154-160 | definition of `limitVelocity`'s new velocity; laws in `LimitLaws` |
| `FlockRules.Orientation` | ARFlock/ViewController.swift:143-149 | definition of the rotation from the pre-update velocity (the cosine stands in for the angle); laws in `OrientationLaws` |
| `FlockRules.Steered` | ARFlock/ViewController.swift:135-145 | definition of the blended velocity `v + 0.01 v1 + 0.01 v2 + 0.01 v3 + v4`; used in `FrameShip` |
| `FlockRules.Step` | ARFlock/ViewController.swift:134-151 | definition of one ship's turn; laws in `FrameShip` and `FrameSpeedBound` |
| `FlockRules.FrameUpTo` | ARFlock/ViewController.swift:134-151 | definition of the flock after the first k turns; keeps the flock's length; laws in `FrameUpToPending`, `FrameUpToDone` and `FrameTurn` |
| `FlockRules.Frame` | ARFlock/ViewController.swift:126-152 | definition of one whole frame; laws in `FrameShip`, `FrameSpeedBound` and `FrameOrientationDefined` |
| `Vectors.AddSubCancel` | ARFlock/SCNVector3+Extensions.swift:79-96 | `(a + b) - b == a` and `(a - b) + b == a` for the component-wise operators |
| `Vectors.ScaleDivCancel` | ARFlock/SCNVector3+Extensions.swift:125-157 | for a non-zero scalar s, `(v * s) / s == v` and `(v / s) * s == v` |
| `Vectors.MulDivCancel` | ARFlock/SCNVector3+Extensions.swift:108-149 | component-wise `(a * b) / b == a` and `(a / b) * b == a` when no component of b is zero |
| `Vectors.DivScalarIsScale` | ARFlock/SCNVector3+Extensions.swift:155-157 | dividing by a non-zero scalar is multiplying by its inverse |
| `Vectors.AddAssign` | ARFlock/SCNVector3+Extensions.swift:86-88 | `+=` stores exactly `left + right` |
| `Vectors.SubAssign` | ARFlock/SCNVector3+Extensions.swift:101-103 | `-=` stores exactly `left - right` |
| `Vectors.MulAssign` | ARFlock/SCNVector3+Extensions.swift:116-118 | vector `*=` stores exactly the component-wise product |
| `Vectors.ScaleAssign` | ARFlock/SCNVector3+Extensions.swift:132-134 | scalar `*=` stores exactly `vector * scalar` |
| `Vectors.DivAssign` | ARFlock/SCNVector3+Extensions.swift:147-149 | vector `/=` stores exactly the component-wise quotient, and needs non-zero components |
| `Vectors.DivScalarAssign` | ARFlock/SCNVector3+Extensions.swift:162-164 | scalar `/=` stores exactly `vector / scalar`, and needs a non-zero scalar |
| `Vectors.NegateLaws` | ARFlock/SCNVector3+Extensions.swift:18-20 | `negate()` is `v * -1`, equals `SCNVector3Negate`, flips every component, is its own inverse and adds with v to zero |
| `Vectors.Negated` | ARFlock/SCNVector3+Extensions.swift:25-28 | the mutating `negated()` sets the receiver to its negation and returns that same value |
| `Vectors.DotLaws` | ARFlock/SCNVector3+Extensions.swift:63-65 | the dot product is commutative and agrees with `SCNVector3DotProduct` |
| `Vectors.CrossLaws` | ARFlock/SCNVector3+Extensions.swift:70-72 | the cross product is anti-commutative, `a × a` is zero, and it agrees with `SCNVector3CrossProduct` |
| `Vectors.CrossOrthogonal` | ARFlock/SCNVector3+Extensions.swift:70-72 | `a × b` is orthogonal to a and to b |
| `Vectors.DotSelf` | ARFlock/SCNVector3+Extensions.swift:33-35 | the squared length `dot(v, v)` is non-negative and zero only for the zero vector |
| `Vectors.Length` | ARFlock/SCNVector3+Extensions.swift:33-35 | `length()` is non-negative, its square is `dot(v, v)`, and it is zero exactly for the zero vector |
| `Vectors.Vector3Length` | ARFlock/SCNVector3+Extensions.swift:176-179 | `SCNVector3Length` agrees with `length()` |
| `Vectors.LengthScale` | ARFlock/SCNVector3+Extensions.swift:41-43 | scaling by k >= 0 scales the length by k (used for normalize and the speed limit) |
| `Vectors.LengthLessIff` | ARFlock/SCNVector3+Extensions.swift:33-35 | `length(v) < c` holds exactly when `dot(v, v) < c²`, for c >= 0 |
| `Vectors.DistanceLaws` | ARFlock/SCNVector3+Extensions.swift:56-58 | distance is non-negative and symmetric, zero exactly between equal points, and `distance()` (self - vector) agrees with `SCNVector3Distance` (end - start) |
| `Vectors.NormalizedIsUnit` | ARFlock/SCNVector3+Extensions.swift:41-43 | for a non-zero vector, `normalized()` equals `SCNVector3Normalize`, is a positive multiple of the input, and has length 1 |
| `Vectors.Normalize` | ARFlock/SCNVector3+Extensions.swift:48-51 | the mutating `normalize()` sets the receiver to `normalized()` and returns it; it needs a non-zero vector |
| `Vectors.ProjectOrthogonal` | ARFlock/SCNVector3+Extensions.swift:213-217 | for a non-zero projection vector p, the projection is a scalar multiple of p and the remainder is orthogonal to p |
| `Vectors.ProjectIdempotent` | ARFlock/SCNVector3+Extensions.swift:213-217 | projecting p onto itself returns p; projecting a projection again changes nothing |
| `Ships.Ship.constructor` | ARFlock/Ship.swift:17-19 | `init(newNode:)` stores the node; velocity is (1,1,1) and prevDir is (0,1,0) |
| `Ships.DefaultVelocityNormalizable` | ARFlock/Ship.swift:14 | the default velocity is non-zero (squared length 3), so the first frame's `normalized()` is defined |
| `FlockRules.SumAppend` | ARFlock/ViewController.swift:127-132 | the perceived sum of a concatenation is the sum of the parts' sums |
| `FlockRules.SumRotate` | ARFlock/ViewController.swift:127-132 | the perceived sums do not depend on where the list starts |
| `FlockRules.TwoShipAggregates` | ARFlock/ViewController.swift:127-165 | for ships at (0,0,0) and (10,0,0) with velocity (1,1,1): centre (10,0,0), velocity sum (2,2,2), cohesion (0.1,0,0) for the first ship and zero for the second |
| `FlockRules.FlyCenterOfMassLaws` | ARFlock/ViewController.swift:162-165 | cohesion is zero exactly at sum/(count-1); it equals the textbook pull toward the other ships' centroid plus `position/(100(count-1))`, because the sum includes the ship itself |
| `FlockRules.MatchSpeedLaws` | ARFlock/ViewController.swift:180-183 | velocity plus the alignment term is the velocity sum over count-1; the term is zero exactly when the ship already moves at that average |
| `FlockRules.ReboundLaws` | ARFlock/ViewController.swift:185-218 | each axis is +1 exactly below its minimum and -1 exactly above its maximum; the term is zero exactly inside x,y ∈ [-30,30], z ∈ [-30,70], boundary included |
| `FlockRules.NearIff` | ARFlock/ViewController.swift:172 | the `abs` is a no-op, and `distance < 5` is `squared distance < 25` |
| `FlockRules.SeparationIsPushAway` | ARFlock/ViewController.swift:167-178 | keepASmallDistance is the sum of `ship - other` over every OTHER ship closer than 5; a ship never counts itself |
| `FlockRules.SeparationNoNeighbour` | ARFlock/ViewController.swift:167-178 | the separation force is zero when no other ship is closer than 5 |
| `FlockRules.LimitLaws` | ARFlock/ViewController.swift:154-160 | a velocity faster than 0.5 becomes a positive multiple of itself with length exactly 0.5; a slower one is unchanged; afterwards the length is at most 0.5 |
| `FlockRules.OrientationLaws` | ARFlock/ViewController.swift:143-149 | the rotation is defined exactly for a non-zero pre-update velocity; its axis is orthogonal to forward (0,0,1) and to that velocity; the cosine passed to acos lies in [-1, 1] |
| `FlockRules.FrameUpToPending` | ARFlock/ViewController.swift:134-151 | by induction over the turns: a ship whose turn has not come yet is still in its start-of-frame state |
| `FlockRules.FrameUpToDone` | ARFlock/ViewController.swift:134-151 | by induction over the turns: a ship that has had its turn is not written again by later turns in the same frame |
| `FlockRules.FrameTurn` | ARFlock/ViewController.swift:134-151 | update order: ship i's turn sees ships before it in their final state for the frame and ships from i on as they started |
| `FlockRules.FrameShip` | ARFlock/ViewController.swift:134-151 | per ship: new velocity = limit(v + 0.01·cohesion + 0.01·separation + 0.01·alignment + bounding), the separation reading earlier ships' new positions; new position = old + new velocity; rotation from the old velocity; prevDir kept |
| `FlockRules.FrameSpeedBound` | ARFlock/ViewController.swift:134-151 | after a frame the flock has the same length, every ship's speed is at most 0.5, and no prevDir has changed |
| `FlockRules.FrameOrientationDefined` | ARFlock/ViewController.swift:144 | every ship with a non-zero velocity at the start of the frame gets a defined rotation |
| `FlockController.ViewController.constructor` | ARFlock/ViewController.swift:58-66 | one fresh, distinct ship per given position, on a copy of the template node moved there, with the default velocity and prevDir |
| `FlockController.ViewController.LimitVelocity` | ARFlock/ViewController.swift:154-160 | writes only the ship's velocity, sets it to the limited velocity, and leaves it no faster than 0.5 |
| `FlockController.ViewController.KeepASmallDistance` | ARFlock/ViewController.swift:167-178 | the loop returns the separation force of the ship in the flock's current state, that is the push-away sum over the other ships |
| `FlockController.ViewController.BoundPositions` | ARFlock/ViewController.swift:185-218 | the six tests return the bounding term, which is zero exactly inside the box |
| `FlockController.ViewController.UpdateShip` | ARFlock/ViewController.swift:134-151 | one turn of the frame loop writes only ship k, which becomes `Step` of the flock as it was |
| `FlockController.ViewController.UpdateAtTime` | ARFlock/ViewController.swift:126-152 | the ship list is unchanged; the ships' new state is `Frame` of their old state; every speed is at most 0.5; no prevDir is written |

## Left out

- Float32 arithmetic: rounding, NaN and infinity are not modelled. All arithmetic is over exact reals, so the round-trip laws hold only in that idealisation.
- `sqrtf` is a parameter constrained by `IsSqrt`, not a definition.
- The rotation angle `acos(...)` and its `CGFloat` conversion (ARFlock/ViewController.swift:148-149) are not modelled, because they are transcendental. The rotation keeps the axis `forward × normalize(oldVelocity)` and the cosine handed to `acos`.
- Normalising a zero velocity gives NaN components in the app. The model records that case as a rotation of `None`. Nothing else in the update depends on it.
- `degToRad` (ARFlock/ViewController.swift:122-124) is unused and relies on `Float.pi`.
- `viewDidLoad`, `viewWillAppear`, `viewWillDisappear` and the session callbacks (ARFlock/ViewController.swift:19-120) are not modelled: scene and asset loading, lights, the spinning decoy ship and its animation, and the ARKit session. The one exception is the ship-creating loop, which `FlockController.ViewController.constructor` models.
- The random start positions (`arc4random_uniform`) and the fixed count of 101 ships are not modelled. The constructor takes the positions as input and needs at least two.
- The node's scale, and adding nodes to the scene graph, are not modelled.
- `SCNNode` identity is not modelled. The test `ship.node != otherShip.node` becomes reference inequality between ships. Each ship owns its own cloned node, so ships are kept pairwise distinct (`Distinct`).
- The `renderer` and `time` arguments of `renderer(_:updateAtTime:)` are unused by the update and are not parameters.
- Flocks of fewer than two ships are excluded by `Valid()` and by the `2 <= count` requirement of the cohesion and alignment terms. In the app, a one-ship flock divides by zero at ARFlock/ViewController.swift:163 and 181, giving inf/NaN in Float. An empty flock is a no-op in the app, since neither loop body runs.
- No behaviour is lost by one structural change: the loop body of `renderer(_:updateAtTime:)` (ARFlock/ViewController.swift:135-150) is its own method here (`UpdateShip`), so that each turn is proved separately. Inside it, `velocityNormal`, `nor` and `angle` (ARFlock/ViewController.swift:144, 147-148) are folded into one `Orientation` call. That call is made before the velocity is written, as `velocityNormal` is in the app, so the result is the same.
