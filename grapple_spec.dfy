/**
 * The grapple controller as a pure state machine. `GrappleState` holds every field of the
 * controller that its entry points read or write; each entry point is a function from the
 * old state to the new one. The class in module GrappleController runs the same steps
 * imperatively and is proved to agree with these functions.
 *
 * Engine queries are inputs: the scene answers raycasts and sphere overlaps, the player's
 * forward direction and the frame time are arguments.
 */
module GrappleSpec {
  import opened Wrappers
  import opened Geometry

  /** Settings fixed for the controller's lifetime, with the engine's vector operations. */
  datatype Config = Config(
    playerRadius: real,
    distanceFromWall: real,
    moveSpeed: real,
    ops: VectorOps)

  /** Default inspector values of the controller's serialized settings. */
  const DefaultMaxDistance: real := 500.0
  const DefaultDistanceFromWall: real := 0.1
  const DefaultMoveSpeed: real := 65.0

  /** The overlap sphere is this much larger than the clearance, so that it reaches the wall. */
  const OverlapMargin: real := 0.01

  /**
   * The scene as seen through the layer mask: a raycast from an origin along a direction up to
   * a maximum distance, and the names of the colliders overlapping a sphere.
   */
  datatype Scene = Scene(
    raycast: (Vec3, Vec3, real) -> Option<Hit>,
    overlapSphere: (Vec3, real) -> seq<string>)

  datatype GrappleState = GrappleState(
    playerPosition: Vec3,                     // the player's transform, shared with the player
    maxDistance: real,
    hit: Option<Hit>,                         // result of the last raycast
    grapplePointCheck: Option<seq<string>>,   // last overlap result; None after a reset
    grapplePointValid: bool,
    markerPosition: Vec3,                     // the anchor preview marker
    currentDistance: real,
    playerMoving: bool,
    cancelled: bool,
    movementActive: bool,
    startPosition: Vec3,
    targetPosition: Vec3,
    distanceTravelled: real,
    fired: nat,                               // times the "fired" event was raised
    finished: nat)                            // times the "finished" event was raised

  /** The previewed anchor: clear of the wall by the player's radius plus the wall distance. */
  function Candidate(h: Hit, c: Config): Vec3 {
    OffsetFrom(h, c.playerRadius + c.distanceFromWall)
  }

  /** Where movement ends: the player's radius away from the surface. */
  function RestingPoint(h: Hit, c: Config): Vec3 {
    OffsetFrom(h, c.playerRadius)
  }

  /** The marker position when the raycast finds nothing in range. */
  function ReachLimit(origin: Vec3, forward: Vec3, maxDistance: real): Vec3 {
    Add(origin, Scale(forward, maxDistance))
  }

  function OverlapRadius(c: Config): real {
    c.playerRadius + c.distanceFromWall + OverlapMargin
  }

  /**
   * The controller's invariant: a valid anchor comes from a real hit whose overlap check found
   * at most one collider; while moving, the target is the resting point of the committed hit;
   * every "finished" event, and the movement in progress, was preceded by its own "fired".
   */
  ghost predicate Inv(s: GrappleState, c: Config) {
    && (s.grapplePointValid ==> s.hit.Some? && s.grapplePointCheck.Some? && |s.grapplePointCheck.value| <= 1)
    && (s.playerMoving ==> s.hit.Some? && s.targetPosition == RestingPoint(s.hit.value, c))
    && s.finished + (if s.playerMoving then 1 else 0) <= s.fired
  }

  /** The fields only movement, release, cancel and teleport may change. */
  ghost predicate SameMotion(s: GrappleState, t: GrappleState) {
    && t.playerPosition == s.playerPosition
    && t.maxDistance == s.maxDistance
    && t.playerMoving == s.playerMoving
    && t.cancelled == s.cancelled
    && t.movementActive == s.movementActive
    && t.startPosition == s.startPosition
    && t.distanceTravelled == s.distanceTravelled
    && t.fired == s.fired
    && t.finished == s.finished
  }

  /** Movement begins in this step. */
  ghost predicate Started(s: GrappleState, t: GrappleState) {
    !s.playerMoving && t.playerMoving
  }

  /** GrapplePointValidCheck: preview the anchor offset from the stored hit and check it for clipping. */
  function ValidCheck(s: GrappleState, c: Config, scene: Scene): (t: GrappleState)
    requires s.hit.Some?
    ensures SameMotion(s, t) && t.hit == s.hit
    ensures t.targetPosition == Candidate(s.hit.value, c) && t.markerPosition == t.targetPosition
    ensures t.grapplePointCheck == Some(scene.overlapSphere(t.targetPosition, OverlapRadius(c)))
    ensures t.grapplePointValid <==> |t.grapplePointCheck.value| <= 1
  {
    var h := s.hit.value;
    var target := Candidate(h, c);
    var check := scene.overlapSphere(target, OverlapRadius(c));
    s.(targetPosition := target,
       grapplePointCheck := Some(check),
       grapplePointValid := !(|check| > 1),
       markerPosition := target,
       currentDistance := c.ops.distance(s.playerPosition, h.point))
  }

  /** GrappleHeld: while the button is held, cast from the player along `forward` and preview an anchor. */
  function Held(s: GrappleState, c: Config, scene: Scene, forward: Vec3): (t: GrappleState)
    requires Inv(s, c)
    ensures Inv(t, c)
    ensures SameMotion(s, t)
    ensures s.playerMoving || s.cancelled ==> t == s
    ensures !s.playerMoving && !s.cancelled ==>
      t.hit == scene.raycast(s.playerPosition, forward, s.maxDistance)
    ensures !s.playerMoving && !s.cancelled && t.hit.None? ==>
      && !t.grapplePointValid
      && t.markerPosition == ReachLimit(s.playerPosition, forward, s.maxDistance)
      && t.targetPosition == s.targetPosition
      && t.grapplePointCheck == s.grapplePointCheck
      && t.currentDistance == s.currentDistance
    ensures !s.playerMoving && !s.cancelled && t.hit.Some? ==>
      && t.targetPosition == Candidate(t.hit.value, c)
      && t.markerPosition == t.targetPosition
      && t.grapplePointCheck == Some(scene.overlapSphere(t.targetPosition, OverlapRadius(c)))
      && (t.grapplePointValid <==> |t.grapplePointCheck.value| <= 1)
  {
    if s.playerMoving || s.cancelled then s
    else
      var origin := s.playerPosition;
      var ray := scene.raycast(origin, forward, s.maxDistance);
      var s1 := s.(hit := ray);
      if ray.Some? then ValidCheck(s1, c, scene)
      else s1.(markerPosition := ReachLimit(origin, forward, s.maxDistance), grapplePointValid := false)
  }

  /** GrappleReleased: on release, consume a pending cancel or commit to a valid anchor. */
  function Released(s: GrappleState, c: Config): (t: GrappleState)
    requires Inv(s, c)
    ensures Inv(t, c)
    ensures s.playerMoving ==> t == s
    ensures !s.playerMoving && s.cancelled ==> t == s.(cancelled := false)
    ensures Started(s, t) <==> !s.playerMoving && !s.cancelled && s.movementActive && s.grapplePointValid
    ensures Started(s, t) ==>
      && t.startPosition == s.playerPosition
      && t.targetPosition == RestingPoint(s.hit.value, c)
      && t.fired == s.fired + 1
      && t == s.(playerMoving := true, startPosition := t.startPosition,
                 targetPosition := t.targetPosition, fired := t.fired)
    ensures !Started(s, t) && !s.cancelled ==> t == s
  {
    if s.playerMoving then s
    else if s.cancelled then s.(cancelled := false)
    else if !s.movementActive then s
    else if s.grapplePointValid then
      s.(playerMoving := true,
         startPosition := s.playerPosition,
         targetPosition := RestingPoint(s.hit.value, c),
         fired := s.fired + 1)
    else s
  }

  /** How far the player may move in one frame: the frame time times the move speed. */
  function FrameStep(deltaTime: real, moveSpeed: real): real {
    deltaTime * moveSpeed
  }

  /** GrapplePlayerMovementFinished: leave the moving state and record the distance covered. */
  function Finish(s: GrappleState, c: Config): (t: GrappleState)
    ensures !t.playerMoving && t.finished == s.finished + 1
    ensures t.distanceTravelled == c.ops.distance(s.startPosition, s.targetPosition)
    ensures t.playerPosition == s.playerPosition && t.targetPosition == s.targetPosition
    ensures t.grapplePointValid == s.grapplePointValid && t.fired == s.fired
  {
    s.(playerMoving := false,
       distanceTravelled := c.ops.distance(s.startPosition, s.targetPosition),
       finished := s.finished + 1)
  }

  /** GrapplePlayerMovement: one frame of movement toward the target, `deltaTime` seconds long. */
  function Tick(s: GrappleState, c: Config, deltaTime: real): (t: GrappleState)
    requires Inv(s, c)
    ensures Inv(t, c)
    ensures !s.playerMoving ==> t == s
    ensures s.playerMoving ==>
      t.playerPosition == c.ops.moveTowards(s.playerPosition, s.targetPosition, FrameStep(deltaTime, c.moveSpeed))
    ensures s.playerMoving ==> (t.playerMoving <==> c.ops.distance(t.playerPosition, s.targetPosition) != 0.0)
    ensures t.playerMoving ==> t.finished == s.finished && t.distanceTravelled == s.distanceTravelled
    ensures s.playerMoving && !t.playerMoving ==>
      && t.finished == s.finished + 1
      && t.distanceTravelled == c.ops.distance(s.startPosition, s.targetPosition)
    ensures && t.targetPosition == s.targetPosition && t.startPosition == s.startPosition
            && t.hit == s.hit && t.grapplePointValid == s.grapplePointValid
            && t.grapplePointCheck == s.grapplePointCheck && t.cancelled == s.cancelled
            && t.movementActive == s.movementActive && t.fired == s.fired
  {
    if !s.playerMoving then s
    else
      var current := c.ops.distance(s.playerPosition, s.hit.value.point);
      var position := c.ops.moveTowards(s.playerPosition, s.targetPosition, FrameStep(deltaTime, c.moveSpeed));
      var s1 := s.(currentDistance := current, playerPosition := position);
      if c.ops.distance(position, s.targetPosition) == 0.0 then Finish(s1, c) else s1
  }

  /** GrapplePointReset: forget the anchor. */
  function Reset(s: GrappleState): (t: GrappleState)
    ensures SameMotion(s, t) && t.targetPosition == s.targetPosition && t.hit == s.hit
    ensures !t.grapplePointValid && t.grapplePointCheck.None? && t.markerPosition == Zero
  {
    s.(markerPosition := Zero, grapplePointValid := false, grapplePointCheck := None)
  }

  /** PlayerTeleported: stop any movement without raising "finished", retarget, and reset the anchor. */
  function Teleported(s: GrappleState, position: Vec3): (t: GrappleState)
    ensures !t.playerMoving && t.targetPosition == position
    ensures !t.grapplePointValid && t.grapplePointCheck.None?
    ensures t.finished == s.finished && t.fired == s.fired && t.cancelled == s.cancelled
    ensures t.markerPosition == Zero
    ensures t.playerPosition == s.playerPosition && t.distanceTravelled == s.distanceTravelled
    ensures && t.startPosition == s.startPosition && t.hit == s.hit
            && t.movementActive == s.movementActive && t.maxDistance == s.maxDistance
            && t.currentDistance == s.currentDistance
  {
    Reset(s.(playerMoving := false, targetPosition := position))
  }

  /** GrappleCancel: mark the gesture cancelled and reset the anchor. */
  function Cancel(s: GrappleState): (t: GrappleState)
    ensures t.cancelled && !t.grapplePointValid && t.grapplePointCheck.None?
    ensures t == Reset(s).(cancelled := true)
  {
    Reset(s.(cancelled := true))
  }

  /** The controller's public entry points, as events. */
  datatype Event =
    | GrappleHeld(scene: Scene, forward: Vec3)
    | GrappleReleased
    | GrapplePlayerMovement(deltaTime: real)
    | PlayerTeleported(position: Vec3)
    | GrapplePointReset
    | GrappleCancel
    | SetMovementActive(state: bool)
    | GrappleDistanceSet(value: real)
    | DebugMaxDistanceEdit(value: real)

  function Step(s: GrappleState, c: Config, e: Event): (t: GrappleState)
    requires Inv(s, c)
    ensures Inv(t, c)
  {
    match e
    case GrappleHeld(scene, forward) => Held(s, c, scene, forward)
    case GrappleReleased => Released(s, c)
    case GrapplePlayerMovement(deltaTime) => Tick(s, c, deltaTime)
    case PlayerTeleported(position) => Teleported(s, position)
    case GrapplePointReset => Reset(s)
    case GrappleCancel => Cancel(s)
    case SetMovementActive(state) => s.(movementActive := state)
    case GrappleDistanceSet(value) => s.(maxDistance := value)
    case DebugMaxDistanceEdit(value) => s.(maxDistance := s.maxDistance + value)
  }

  /** The state after a sequence of entry-point calls. */
  function Run(s: GrappleState, c: Config, events: seq<Event>): (t: GrappleState)
    requires Inv(s, c)
    ensures Inv(t, c)
    decreases |events|
  {
    if events == [] then s else Run(Step(s, c, events[0]), c, events[1..])
  }

  // ---------------------------------------------------------------------------------------
  // Properties of the state machine
  // ---------------------------------------------------------------------------------------

  /**
   * Movement starts only on a release, and only from an idle, uncancelled controller whose gate
   * is open and whose anchor is valid; "fired" is raised exactly when movement starts.
   */
  lemma OnlyReleaseStartsMovement(s: GrappleState, c: Config, e: Event)
    requires Inv(s, c)
    ensures var t := Step(s, c, e);
      && (Started(s, t) ==> e.GrappleReleased? && !s.cancelled && s.movementActive && s.grapplePointValid)
      && t.fired == s.fired + (if Started(s, t) then 1 else 0)
  {
  }

  /** "finished" is raised only by a movement step that ends the movement. */
  lemma OnlyArrivalFinishes(s: GrappleState, c: Config, e: Event)
    requires Inv(s, c)
    ensures var t := Step(s, c, e);
      t.finished == s.finished + (if e.GrapplePlayerMovement? && s.playerMoving && !t.playerMoving then 1 else 0)
  {
  }

  /** Previewing twice with the world unchanged gives the same result as previewing once. */
  lemma HeldIdempotent(s: GrappleState, c: Config, scene: Scene, forward: Vec3)
    requires Inv(s, c)
    ensures Held(Held(s, c, scene, forward), c, scene, forward) == Held(s, c, scene, forward)
  {
  }

  predicate AllHeld(events: seq<Event>) {
    forall i :: 0 <= i < |events| ==> events[i].GrappleHeld?
  }

  /** After a cancel, holding the button changes nothing. */
  lemma {:induction false} CancelledIgnoresHeld(s: GrappleState, c: Config, events: seq<Event>)
    requires Inv(s, c) && s.cancelled && AllHeld(events)
    ensures Run(s, c, events) == s
    decreases |events|
  {
    if events != [] {
      CancelledIgnoresHeld(Step(s, c, events[0]), c, events[1..]);
    }
  }

  /**
   * A cancel made while idle is consumed by exactly one release: holding in between does
   * nothing, that release clears the flag without starting movement, and since the anchor
   * was reset a second release does not start movement either.
   */
  lemma CancelConsumedByOneRelease(s: GrappleState, c: Config, held: seq<Event>)
    requires Inv(s, c) && !s.playerMoving && AllHeld(held)
    ensures var t := Released(Run(Cancel(s), c, held), c);
      && !t.cancelled && !t.playerMoving && t.fired == s.fired
      && !Released(t, c).playerMoving
  {
    CancelledIgnoresHeld(Cancel(s), c, held);
  }

  /** A movement step at least as long as the remaining distance lands exactly on the target. */
  lemma TickLands(s: GrappleState, c: Config, deltaTime: real)
    requires Inv(s, c) && Lawful(c.ops) && s.playerMoving
    requires 0.0 <= FrameStep(deltaTime, c.moveSpeed)
    requires c.ops.distance(s.playerPosition, s.targetPosition) <= FrameStep(deltaTime, c.moveSpeed)
    ensures var t := Tick(s, c, deltaTime);
      && t.playerPosition == s.targetPosition
      && !t.playerMoving
      && t.distanceTravelled == c.ops.distance(s.startPosition, s.targetPosition)
      && t.finished == s.finished + 1
      && t.grapplePointValid == s.grapplePointValid
  {
  }

  /** Movement stops exactly when the player stands on the target. */
  lemma TickStopsExactlyAtTarget(s: GrappleState, c: Config, deltaTime: real)
    requires Inv(s, c) && Lawful(c.ops) && s.playerMoving
    ensures var t := Tick(s, c, deltaTime);
      !t.playerMoving <==> t.playerPosition == s.targetPosition
  {
  }

  /** The state after a frame of movement for each of the given frame times. */
  function Ticks(s: GrappleState, c: Config, deltaTimes: seq<real>): (t: GrappleState)
    requires Inv(s, c)
    ensures Inv(t, c)
    decreases |deltaTimes|
  {
    if deltaTimes == [] then s else Ticks(Tick(s, c, deltaTimes[0]), c, deltaTimes[1..])
  }

  /**
   * Whatever the frame times, movement keeps the committed start and target, and when it has
   * ended the player stands on the target, "finished" was raised once and the recorded distance
   * is the distance from the start to the target.
   */
  lemma {:induction false} TicksFinishAtCommittedTarget(s: GrappleState, c: Config, deltaTimes: seq<real>)
    requires Inv(s, c) && Lawful(c.ops) && s.playerMoving
    ensures var t := Ticks(s, c, deltaTimes);
      && t.startPosition == s.startPosition && t.targetPosition == s.targetPosition
      && (t.playerMoving ==> t.finished == s.finished)
      && (!t.playerMoving ==>
            && t.playerPosition == s.targetPosition
            && t.finished == s.finished + 1
            && t.distanceTravelled == c.ops.distance(s.startPosition, s.targetPosition))
    decreases |deltaTimes|
  {
    if deltaTimes != [] {
      var s1 := Tick(s, c, deltaTimes[0]);
      if s1.playerMoving {
        TicksFinishAtCommittedTarget(s1, c, deltaTimes[1..]);
      } else {
        TickStopsExactlyAtTarget(s, c, deltaTimes[0]);
        TicksWhileIdle(s1, c, deltaTimes[1..]);
      }
    }
  }

  /** Movement frames do nothing while idle. */
  lemma {:induction false} TicksWhileIdle(s: GrappleState, c: Config, deltaTimes: seq<real>)
    requires Inv(s, c) && !s.playerMoving
    ensures Ticks(s, c, deltaTimes) == s
    decreases |deltaTimes|
  {
    if deltaTimes != [] {
      TicksWhileIdle(Tick(s, c, deltaTimes[0]), c, deltaTimes[1..]);
    }
  }
}
