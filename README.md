# Grapple controller and extension helpers, in Dafny

This project models two parts of a first-person grappling-hook game.

**The grapple controller** (`Assets/Scripts/Player/Grapple.cs`) is a single object with flags
(`playerMoving`, `cancelled`, `movementActive`, `grapplePointValid`), positions
(`startPosition`, `targetPosition`, the preview marker's position) and telemetry
(`currentDistance`, `distanceTravelled`, the `fired`/`finished` events). Its entry points work
as follows:

- While the button is held, `GrappleHeld` casts a ray from the player and previews an anchor.
  `GrapplePointValidCheck` then places the candidate standing point off the wall and checks it
  for overlaps.
- `GrappleReleased` either consumes a pending cancel or commits to the anchor.
- `GrapplePlayerMovement` runs every frame and moves the player toward the target.
- `PlayerTeleported`, `GrapplePointReset`, `GrappleCancel`, `SetMovementActive`,
  `GrappleDistanceSet` and `debugMaxDistanceEdit` cover teleports, resets, cancels, the
  enable gate and the reach.

The model has two layers:

- `GrappleSpec` (grapple_spec.dfy) gives each entry point as a function on a `GrappleState`
  value. It states the controller's invariant `Inv` and proves the state machine's properties
  over single steps and over whole event sequences (`Run`, `Ticks`).
- `GrappleController` (grapple.dfy) is the object itself: a `Grapple` class whose fields the
  methods update in place, and a `Player` whose position it moves. Each method is proved to
  produce exactly the state the matching `GrappleSpec` function computes. Each public entry
  point is also proved to keep `Inv`. The two private helpers `GrapplePointValidCheck` and
  `GrapplePlayerMovementFinished` are called only from inside those entry points.

Engine services become inputs:

- `Scene` (grapple_spec.dfy) gives the ray cast (`Some(hit)` or `None`) and the sphere overlap
  (the colliders found), both as functions of the query's arguments.
- The forward direction and the frame time are method parameters.
- `Vector3.Distance` and `Vector3.MoveTowards` are passed in as `VectorOps`
  (geometry.dfy). Properties that need them assume only the laws in `Lawful`:
  - distances are non-negative;
  - a distance is zero exactly between equal points;
  - `MoveTowards` reaches the target when the step covers the remaining distance.

  `LawfulOpsExist` shows these laws can be met.
- The `fired` and `finished` events are counters.

**Two behaviours follow the code:**

- An anchor is valid when the overlap check finds **at most one** collider (`!(Length > 1)`),
  so an empty overlap is valid too.
- `GrappleCancel` is unguarded: it sets `cancelled` and resets the preview even while the
  player is moving. A cancel made while moving lasts until the next release after the movement.

**The extension helpers** (`Assets/Scripts/Extensions.cs`), in module `Extensions`:

- `FloatFromAxis` turns a pair of buttons into +1/−1/0.
- `AllCharsAreDigits` is an array loop.
- `ConvertTime` formats a whole number of seconds as "Nd Nh Nm Ns ". It drops non-positive
  days, hours and minutes and writes "0s" for non-positive seconds. A small reader for that
  format (`ParseTime`) states what the text means. It reads back as a canonical duration of the
  same number of seconds, or of zero seconds when the input is not positive.
- `ToStringBuilder` over a collider array lists the names of the non-null colliders.
- `SetChildLayers` updates a transform hierarchy, modelled as a rose tree.

As in the code, `SetChildLayers` assigns the layer to every strict descendant but keeps the
root's own layer, even though its doc comment says "this transform and all its children". The
engine refuses a layer outside 0..31 and leaves the object's layer as it was; the model does
the same (`AssignLayer`), so such a call changes nothing.

## Model

| member | source | states |
|---|---|---|
| GrappleSpec.ValidCheck | Assets/Scripts/Player/Grapple.cs:101-119 | the candidate target is the hit point pushed out along the normal by radius + wall distance; the marker goes there; the overlap query is made at that point with radius + wall distance + 0.01; the anchor is valid iff at most one collider overlaps; nothing about movement changes |
| GrappleSpec.Held | Assets/Scripts/Player/Grapple.cs:75-97 | while moving or cancelled the state is unchanged; otherwise the stored hit is the ray cast from the player along forward up to maxDistance; on a miss the anchor is invalid, the marker sits at origin + forward·maxDistance, and the target, the stale overlap result and the current distance are kept; on a hit the anchor is checked as in ValidCheck; the invariant is kept |
| GrappleSpec.Released | Assets/Scripts/Player/Grapple.cs:123-139 | while moving nothing changes; a pending cancel is cleared and nothing else changes; movement starts iff not moving, not cancelled, gate open and anchor valid; on start the start position is the player's, the target is hit point + normal·radius, and fired rises by one; in every other case nothing changes |
| GrappleSpec.Tick | Assets/Scripts/Player/Grapple.cs:143-152 | idle: no change; moving: the player moves by MoveTowards with step deltaTime·moveSpeed, and movement stops exactly when the new distance to the target is zero; then finished rises by one and the start-to-target distance is recorded; target, anchor, flags and fired are untouched |
| GrappleSpec.Finish | Assets/Scripts/Player/Grapple.cs:153-158 | clears playerMoving, records the start-to-target distance, raises finished once, leaves the anchor's validity alone |
| GrappleSpec.Reset | Assets/Scripts/Player/Grapple.cs:188-194 | anchor invalid, overlap result cleared, marker at the origin; movement, flags and target unchanged |
| GrappleSpec.Teleported | Assets/Scripts/Player/Grapple.cs:159-165 | movement stops without raising finished, the target becomes the given position, and the anchor is reset (invalid, no overlap result, marker at the origin); the player, start, hit, gate, reach, distances and event counts are unchanged |
| GrappleSpec.Cancel | Assets/Scripts/Player/Grapple.cs:195-199 | sets cancelled and performs exactly the reset |
| GrappleSpec.Step | Assets/Scripts/Player/Grapple.cs:62-228 | every entry point keeps the invariant: a valid anchor has a hit and at most one overlap, a moving player targets the committed hit's resting point, and finished never overtakes fired |
| GrappleSpec.Run | Assets/Scripts/Player/Grapple.cs:62-228 | any sequence of entry-point calls keeps the invariant |
| GrappleSpec.Ticks | Assets/Scripts/Player/Grapple.cs:62-67 | any sequence of frames keeps the invariant |
| GrappleSpec.OnlyReleaseStartsMovement | Assets/Scripts/Player/Grapple.cs:126-137 | movement starts only on a release from an uncancelled controller with the gate open and a valid anchor, and fired rises exactly when movement starts |
| GrappleSpec.OnlyArrivalFinishes | Assets/Scripts/Player/Grapple.cs:151-157 | finished rises only on a movement frame that ends the movement; teleport and cancel never raise it |
| GrappleSpec.HeldIdempotent | Assets/Scripts/Player/Grapple.cs:75-97 | previewing twice against the same world is the same as previewing once |
| GrappleSpec.CancelledIgnoresHeld | Assets/Scripts/Player/Grapple.cs:79 | after a cancel, any number of held frames change nothing |
| GrappleSpec.CancelConsumedByOneRelease | Assets/Scripts/Player/Grapple.cs:128 | a cancel made while idle survives held frames, is cleared by exactly one release without starting movement, and a second release does not start movement either |
| GrappleSpec.TickLands | Assets/Scripts/Player/Grapple.cs:145-157 | when the step covers the remaining distance, the player lands exactly on the target, movement stops, finished rises once, the start-to-target distance is recorded, and validity is untouched |
| GrappleSpec.TickStopsExactlyAtTarget | Assets/Scripts/Player/Grapple.cs:148-151 | a moving frame ends the movement iff the player is now on the target |
| GrappleSpec.TicksFinishAtCommittedTarget | Assets/Scripts/Player/Grapple.cs:143-158 | over any frames, start and target stay committed; once movement has ended the player is on the target, finished was raised exactly once and the recorded distance is start-to-target |
| GrappleSpec.TicksWhileIdle | Assets/Scripts/Player/Grapple.cs:145 | movement frames do nothing while idle |
| Geometry.LawfulOpsExist | Assets/Scripts/Player/Grapple.cs:148-151 | the laws assumed of Distance and MoveTowards can all be met together |
| GrappleController.Grapple.constructor | Assets/Scripts/Player/Grapple.cs:26-55 | the controller starts idle, uncancelled, gate closed, with no anchor, no events raised, and the configured reach, wall distance and speed |
| GrappleController.Grapple.WithDefaults | Assets/Scripts/Player/Grapple.cs:26-30 | a controller with the inspector defaults (reach 500, wall distance 0.1, speed 65) starts idle, with no anchor and no events raised |
| GrappleController.Grapple.GrappleDistanceSet | Assets/Scripts/Player/Grapple.cs:68-71 | sets the reach and nothing else |
| GrappleController.Grapple.DebugMaxDistanceEdit | Assets/Scripts/Player/Grapple.cs:225-228 | adds to the reach and changes nothing else |
| GrappleController.Grapple.GrappleHeld | Assets/Scripts/Player/Grapple.cs:75-97 | the fields afterwards are exactly GrappleSpec.Held of the fields before; the invariant is kept |
| GrappleController.Grapple.GrapplePointValidCheck | Assets/Scripts/Player/Grapple.cs:101-119 | the fields afterwards are exactly GrappleSpec.ValidCheck of the fields before |
| GrappleController.Grapple.GrappleReleased | Assets/Scripts/Player/Grapple.cs:123-139 | the fields afterwards are exactly GrappleSpec.Released of the fields before; the invariant is kept |
| GrappleController.Grapple.GrapplePlayerMovement | Assets/Scripts/Player/Grapple.cs:143-152 | the fields and the player's position afterwards are exactly GrappleSpec.Tick of those before; the invariant is kept |
| GrappleController.Grapple.GrapplePlayerMovementFinished | Assets/Scripts/Player/Grapple.cs:153-158 | the fields afterwards are exactly GrappleSpec.Finish of the fields before |
| GrappleController.Grapple.PlayerTeleported | Assets/Scripts/Player/Grapple.cs:159-165 | the fields afterwards are exactly GrappleSpec.Teleported of the fields before; the invariant is kept |
| GrappleController.Grapple.GrapplePointReset | Assets/Scripts/Player/Grapple.cs:188-194 | the fields afterwards are exactly GrappleSpec.Reset of the fields before; the invariant is kept |
| GrappleController.Grapple.GrappleCancel | Assets/Scripts/Player/Grapple.cs:195-199 | the fields afterwards are exactly GrappleSpec.Cancel of the fields before; the invariant is kept |
| GrappleController.Grapple.SetMovementActive | Assets/Scripts/Player/Grapple.cs:200-203 | opens or closes the gate and changes nothing else |
| Extensions.FloatFromAxis | Assets/Scripts/Extensions.cs:158-164 | 1 exactly for (true, false), −1 exactly for (false, true), 0 exactly when both buttons agree |
| Extensions.FloatFromAxisAntisymmetric | Assets/Scripts/Extensions.cs:158-164 | swapping the buttons negates the axis |
| Extensions.AllCharsAreDigits | Assets/Scripts/Extensions.cs:110-115 | true iff every character is a digit (so true for the empty array) |
| Extensions.NatToString | Assets/Scripts/Extensions.cs:47-50 | the decimal text of a count is non-empty, made of digits, and has no leading zero (zero is "0") |
| Extensions.NatToStringValue | Assets/Scripts/Extensions.cs:47-50 | the decimal text of a count reads back as that count |
| Extensions.FormatSpan | Assets/Scripts/Extensions.cs:46-50 | when no component is positive the text is exactly "0s" |
| Extensions.ConvertTime | Assets/Scripts/Extensions.cs:43-51 | a non-positive (truncated) time gives exactly "0s" |
| Extensions.FormatSpanEnds | Assets/Scripts/Extensions.cs:50 | the text always ends with the seconds: "s " after a positive count, otherwise "0s" |
| Extensions.FormatSpanParses | Assets/Scripts/Extensions.cs:47-50 | the text reads back as the listed parts: days, hours and minutes only when positive, then the seconds (0 when not positive) |
| Extensions.TimeSpanSplit | Assets/Scripts/Extensions.cs:45 | for n ≥ 0: days·86400 + hours·3600 + minutes·60 + seconds = n, with hours below 24, minutes and seconds below 60 |
| Extensions.TimeSpanNonPositive | Assets/Scripts/Extensions.cs:45 | for n ≤ 0 no component is positive (truncating division) |
| Extensions.SpanPartsCanonical | Assets/Scripts/Extensions.cs:47-50 | the printed parts of a split span are in d, h, m, s order, each once, in range, ending with the seconds |
| Extensions.SpanPartsTotal | Assets/Scripts/Extensions.cs:47-50 | the printed parts of a split span add up to its seconds |
| Extensions.TotalSecondsAppend | Assets/Scripts/Extensions.cs:47-50 | the seconds of concatenated parts are the sum of the seconds of each |
| Extensions.ConvertTimeReadsBack | Assets/Scripts/Extensions.cs:43-51 | the output always reads back as a canonical duration whose total is the input's seconds, or zero for a non-positive input |
| Extensions.ToStringBuilder | Assets/Scripts/Extensions.cs:102-109 | null gives ifNullText, empty gives ifEmptyText, otherwise the names of the non-null colliders, each followed by ", ", in order |
| Extensions.ToStringBuilderDefault | Assets/Scripts/Extensions.cs:102 | with both optional texts left at "n/a", a null or empty array gives "n/a" and any other array its list of names |
| Extensions.ColliderNamesAppend | Assets/Scripts/Extensions.cs:107 | the list for a concatenation of arrays is the concatenation of their lists |
| Extensions.ColliderNamesSnoc | Assets/Scripts/Extensions.cs:107 | one more collider adds its entry at the end |
| Extensions.ColliderNamesAllNull | Assets/Scripts/Extensions.cs:107 | an array of only null colliders lists as "" |
| Extensions.ColliderNamesLength | Assets/Scripts/Extensions.cs:107 | each non-null collider adds its name's length plus 2, null colliders add nothing |
| Extensions.WithChildLayers | Assets/Scripts/Extensions.cs:25-33 | the root keeps its layer and its number of children |
| Extensions.WithChildLayersIgnoresInvalid | Assets/Scripts/Extensions.cs:30 | a layer outside 0..31 leaves the whole hierarchy unchanged |
| Extensions.SetChildLayers | Assets/Scripts/Extensions.cs:25-33 | the loop over the children computes exactly WithChildLayers |
| Extensions.WithChildLayersRelayers | Assets/Scripts/Extensions.cs:25-33 | the root keeps its own layer and, for a layer in 0..31, every strict descendant ends up on it |
| Extensions.WithChildLayersKeepsShape | Assets/Scripts/Extensions.cs:25-33 | the tree shape is unchanged |
| Extensions.WithChildLayersFixesUniform | Assets/Scripts/Extensions.cs:25-33 | a tree whose descendants are already on the layer is left as it is |
| Extensions.WithChildLayersIdempotent | Assets/Scripts/Extensions.cs:25-33 | applying the update twice equals applying it once |

## Left out

- Floating point: `float` positions, distances and times are modelled as exact reals. Rounding in `hit.point + hit.normal * r` and in `deltaTime * moveSpeed` is not modelled.
- `Vector3.Distance` and `Vector3.MoveTowards` are inputs (`VectorOps`), not computed, because `Distance` needs a square root. Only the laws in `Lawful` are assumed of them.
- `Physics.Raycast`, `Physics.OverlapSphere` and the layer mask are the `Scene` input. `TransformDirection(Vector3.forward)` and `Time.deltaTime` are method parameters.
- The marker's activation and colour (`SetActive`, `SetColor`) are left out. So is the destination marker moved on each frame (Grapple.cs:146). The preview marker's position is kept.
- The debug mirrors `debugTargetPosition`, `debugTargetRotation` and `debugDistanceToTargetPosition` are left out. Also left out: `Update`'s copies of them, `Debug.DrawLine`/gizmos and `debugGetStats`.
- `targetRotation`, the `eulerAngles` argument of `PlayerTeleported`, and `playerRotation` are left out. They feed only commented-out rotation code.
- The commented-out ammo code, the empty `Enable`/`Disable` methods, `Awake` and the static `instance` are left out.
- `UnityEvent` subscribers are not modelled. `fired` and `finished` count the invocations.
- The marker's initial position is taken as the origin.
- The player's radius, `distanceFromWall` and `moveSpeed` are fixed for the controller's lifetime (consts). The code reads them afresh on every call, so a change between a release and the movement frames is not modelled. The invariant's clause "a moving player targets the committed hit's resting point" relies on this.
- `Assets/Scripts/Level/LevelGoal.cs` is not part of this model. It is engine glue: a `goalUnlocked` setter that moves an object to its locked or unlocked position and colours a light, and a trigger callback that shows a "Goal Reached!" message and tells the current level the goal was reached.
- The floating-point and trigonometric helpers in Extensions.cs are not part of this model: `CalcGCD`, `FOVHorizontalToVertical`, `DirectionFromAngleY`/`X`, `Round`, `ReflectRotation`, and the `Vector3`/`Vector2` `ToStringBuilder` overloads.
- AllCharsAreDigits: a digit is an ASCII '0'–'9'. .NET's `char.IsDigit` also accepts other Unicode decimal digits. A null array, which throws in the code, cannot be passed.
- ConvertTime: takes the already-truncated whole number of seconds. The `(int)` cast from `double`, and its overflow for huge values, are not modelled.
- SetChildLayers: works on a tree value and returns the updated tree. It does not update shared game objects in place, so aliasing between hierarchies is not captured.
- ToStringBuilder: returns a string, not a `StringBuilder`. A collider is its game object's name, or null.
