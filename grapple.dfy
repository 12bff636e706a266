/**
 * The grapple controller as the object the game runs: its flags and positions are fields that
 * the entry points update step by step. Each method is proved to leave the object in the state
 * that the matching function of GrappleSpec computes from the old state, and to keep the
 * controller's invariant.
 */
module GrappleController {
  import opened Wrappers
  import opened Geometry
  import opened GrappleSpec

  /** The player, shared with the rest of the game: the grapple reads and moves its position. */
  class Player {
    var position: Vec3
    const playerRadius: real

    constructor (position: Vec3, playerRadius: real)
      ensures this.position == position && this.playerRadius == playerRadius
    {
      this.position := position;
      this.playerRadius := playerRadius;
    }
  }

  class Grapple {
    const player: Player
    const distanceFromWall: real
    const moveSpeed: real
    const ops: VectorOps

    var maxDistance: real
    var hit: Option<Hit>
    var grapplePointCheck: Option<seq<string>>
    var grapplePointValid: bool
    var markerPosition: Vec3
    var currentDistance: real
    var playerMoving: bool
    var cancelled: bool
    var movementActive: bool
    var startPosition: Vec3
    var targetPosition: Vec3
    var distanceTravelled: real
    var fired: nat
    var finished: nat

    function Config(): Config {
      GrappleSpec.Config(player.playerRadius, distanceFromWall, moveSpeed, ops)
    }

    /** The controller's fields, with the player's position. */
    function State(): GrappleState
      reads this, player
    {
      GrappleState(player.position, maxDistance, hit, grapplePointCheck, grapplePointValid,
                   markerPosition, currentDistance, playerMoving, cancelled, movementActive,
                   startPosition, targetPosition, distanceTravelled, fired, finished)
    }

    ghost predicate Valid()
      reads this, player
    {
      Inv(State(), Config())
    }

    /** A controller in its initial state: idle, gate closed, no anchor, no events raised. */
    constructor (player: Player, ops: VectorOps, maxDistance: real, distanceFromWall: real, moveSpeed: real)
      ensures Valid()
      ensures this.player == player && this.ops == ops
      ensures this.maxDistance == maxDistance && this.distanceFromWall == distanceFromWall
      ensures this.moveSpeed == moveSpeed
      ensures !playerMoving && !cancelled && !movementActive && !grapplePointValid
      ensures hit.None? && grapplePointCheck.None? && fired == 0 && finished == 0
    {
      this.player := player;
      this.ops := ops;
      this.maxDistance := maxDistance;
      this.distanceFromWall := distanceFromWall;
      this.moveSpeed := moveSpeed;
      hit := None;
      grapplePointCheck := None;
      grapplePointValid := false;
      markerPosition := Zero;
      currentDistance := 0.0;
      playerMoving := false;
      cancelled := false;
      movementActive := false;
      startPosition := Zero;
      targetPosition := Zero;
      distanceTravelled := 0.0;
      fired := 0;
      finished := 0;
    }

    /** A controller with the settings' inspector defaults: reach 500, wall distance 0.1, speed 65. */
    constructor WithDefaults(player: Player, ops: VectorOps)
      ensures Valid()
      ensures this.player == player && this.ops == ops
      ensures maxDistance == DefaultMaxDistance && distanceFromWall == DefaultDistanceFromWall
      ensures moveSpeed == DefaultMoveSpeed
      ensures !playerMoving && !cancelled && !movementActive && !grapplePointValid
      ensures hit.None? && grapplePointCheck.None? && fired == 0 && finished == 0
    {
      this.player := player;
      this.ops := ops;
      this.maxDistance := DefaultMaxDistance;
      this.distanceFromWall := DefaultDistanceFromWall;
      this.moveSpeed := DefaultMoveSpeed;
      hit := None;
      grapplePointCheck := None;
      grapplePointValid := false;
      markerPosition := Zero;
      currentDistance := 0.0;
      playerMoving := false;
      cancelled := false;
      movementActive := false;
      startPosition := Zero;
      targetPosition := Zero;
      distanceTravelled := 0.0;
      fired := 0;
      finished := 0;
    }

    method GrappleDistanceSet(value: real)
      requires Valid()
      modifies this
      ensures Valid()
      ensures State() == old(State()).(maxDistance := value)
    {
      maxDistance := value;
    }

    method DebugMaxDistanceEdit(value: real)
      requires Valid()
      modifies this
      ensures Valid()
      ensures State() == old(State()).(maxDistance := old(maxDistance) + value)
    {
      maxDistance := maxDistance + value;
    }

    /** Runs every frame the grapple button is held. */
    method GrappleHeld(scene: Scene, forward: Vec3)
      requires Valid()
      modifies this
      ensures Valid()
      ensures State() == Held(old(State()), Config(), scene, forward)
    {
      if playerMoving { return; }
      if cancelled { return; }
      var origin := player.position;
      hit := scene.raycast(origin, forward, maxDistance);
      if hit.Some? {
        GrapplePointValidCheck(scene);
      } else {
        markerPosition := ReachLimit(origin, forward, maxDistance);
        grapplePointValid := false;
      }
    }

    method GrapplePointValidCheck(scene: Scene)
      requires hit.Some?
      modifies this
      ensures State() == ValidCheck(old(State()), Config(), scene)
    {
      targetPosition := Candidate(hit.value, Config());
      grapplePointCheck := Some(scene.overlapSphere(targetPosition, OverlapRadius(Config())));
      grapplePointValid := !(|grapplePointCheck.value| > 1);
      markerPosition := targetPosition;
      currentDistance := ops.distance(player.position, hit.value.point);
    }

    /** Runs when the grapple button is released. */
    method GrappleReleased()
      requires Valid()
      modifies this
      ensures Valid()
      ensures State() == Released(old(State()), Config())
    {
      if playerMoving { return; }
      if cancelled { cancelled := false; return; }
      if !movementActive { return; }
      if grapplePointValid {
        playerMoving := true;
        startPosition := player.position;
        targetPosition := RestingPoint(hit.value, Config());
        fired := fired + 1;
      }
    }

    /** Runs every frame: moves the player `deltaTime * moveSpeed` toward the target. */
    method GrapplePlayerMovement(deltaTime: real)
      requires Valid()
      modifies this, player
      ensures Valid()
      ensures State() == Tick(old(State()), Config(), deltaTime)
    {
      if !playerMoving { return; }
      currentDistance := ops.distance(player.position, hit.value.point);
      player.position := ops.moveTowards(player.position, targetPosition, FrameStep(deltaTime, moveSpeed));
      if ops.distance(player.position, targetPosition) == 0.0 {
        GrapplePlayerMovementFinished();
      }
    }

    method GrapplePlayerMovementFinished()
      modifies this
      ensures State() == Finish(old(State()), Config())
    {
      playerMoving := false;
      distanceTravelled := ops.distance(startPosition, targetPosition);
      finished := finished + 1;
    }

    /** Called after the player has been moved by other code, for instance on a respawn. */
    method PlayerTeleported(position: Vec3)
      requires Valid()
      modifies this
      ensures Valid()
      ensures State() == Teleported(old(State()), position)
    {
      playerMoving := false;
      targetPosition := position;
      GrapplePointReset();
    }

    method GrapplePointReset()
      requires Valid()
      modifies this
      ensures Valid()
      ensures State() == Reset(old(State()))
    {
      markerPosition := Zero;
      grapplePointValid := false;
      grapplePointCheck := None;
    }

    method GrappleCancel()
      requires Valid()
      modifies this
      ensures Valid()
      ensures State() == Cancel(old(State()))
    {
      cancelled := true;
      GrapplePointReset();
    }

    method SetMovementActive(state: bool)
      requires Valid()
      modifies this
      ensures Valid()
      ensures State() == old(State()).(movementActive := state)
    {
      movementActive := state;
    }
  }
}
