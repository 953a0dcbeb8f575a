/**
 * The zero-gravity balloon state: on entry it stops vertical motion and
 * turns gravity off; on each update it sets the horizontal velocity from the
 * balloon's direction and speed, doubled while the player is horizontally
 * close, and moves the balloon by that velocity.
 */
module ZeroGravityState {
  import opened Geometry

  /** Ten 16-pixel tiles, times two: within this horizontal distance the balloon speeds up. */
  const BOOST_DISTANCE: real := 10.0 * 16.0 * 2.0

  /** What the owner's sprite animation is doing, as far as this state starts and stops it. */
  datatype AnimationState = Stopped | Playing(name: string, loop: bool)

  /** The balloon's scene node. */
  class GameNode {
    var position: Vec2
    var animation: AnimationState

    constructor (position: Vec2)
      ensures this.position == position && animation == Stopped
    {
      this.position := position;
      animation := Stopped;
    }

    /** `move(delta)`: translates the node by `delta`. */
    method Move(delta: Vec2)
      modifies this`position
      ensures position == old(position).Plus(delta)
    {
      position := position.Plus(delta);
    }
  }

  /** The balloon's state machine: the owner node and the motion its states share. */
  class BalloonController {
    const owner: GameNode
    var velocity: Vec2
    var direction: Vec2
    var speed: real

    constructor (owner: GameNode, direction: Vec2, speed: real)
      ensures this.owner == owner && velocity == ZERO && this.direction == direction && this.speed == speed
    {
      this.owner := owner;
      velocity := ZERO;
      this.direction := direction;
      this.speed := speed;
    }
  }

  /**
   * The horizontal velocity the state sets: direction times speed, doubled
   * exactly when the player is strictly closer than the boost distance. It
   * depends on nothing the previous frame left behind.
   */
  function ZeroGravityVelocityX(directionX: real, speed: real, playerX: real, ownerX: real): (vx: real)
    ensures Abs(playerX - ownerX) < BOOST_DISTANCE ==> vx == 2.0 * (directionX * speed)
    ensures Abs(playerX - ownerX) >= BOOST_DISTANCE ==> vx == directionX * speed
  {
    var cruise := directionX * speed;
    if Abs(playerX - ownerX) < BOOST_DISTANCE then cruise * 2.0 else cruise
  }

  /** At exactly the boost distance, on either side, the balloon keeps its cruising speed. */
  lemma BoostIsStrict(directionX: real, speed: real, ownerX: real)
    ensures ZeroGravityVelocityX(directionX, speed, ownerX + BOOST_DISTANCE, ownerX) == directionX * speed
    ensures ZeroGravityVelocityX(directionX, speed, ownerX - BOOST_DISTANCE, ownerX) == directionX * speed
  {
  }

  /**
   * A moving balloon is going twice its cruising speed exactly when the
   * player is within the boost distance.
   */
  lemma BoostedIffClose(directionX: real, speed: real, playerX: real, ownerX: real)
    requires directionX * speed != 0.0
    ensures ZeroGravityVelocityX(directionX, speed, playerX, ownerX) == 2.0 * (directionX * speed)
            <==> Abs(playerX - ownerX) < BOOST_DISTANCE
  {
  }

  class ZeroGravity {
    const parent: BalloonController
    const owner: GameNode
    var gravity: real
    /** The player's last known position, kept up to date from game events. */
    var playerPosition: Vec2

    /** The state drives the same node its state machine owns. */
    ghost predicate Valid()
      reads this
    {
      owner == parent.owner
    }

    constructor (parent: BalloonController, gravity: real, playerPosition: Vec2)
      ensures Valid() && this.parent == parent && this.gravity == gravity
      ensures this.playerPosition == playerPosition
    {
      this.parent := parent;
      owner := parent.owner;
      this.gravity := gravity;
      this.playerPosition := playerPosition;
    }

    /** Entering the state stops vertical motion, turns gravity off and plays the idle loop. */
    method OnEnter()
      modifies parent`velocity, this`gravity, owner`animation
      ensures parent.velocity == Vec2(old(parent.velocity.x), 0.0)
      ensures gravity == 0.0
      ensures owner.animation == Playing("IDLE", true)
    {
      parent.velocity := parent.velocity.(y := 0.0);
      gravity := 0.0;
      owner.animation := Playing("IDLE", true);
    }

    /**
     * One frame of `deltaT` seconds. The inherited `BalloonState.update` runs
     * first; its effect on the state machine is given as the velocity and
     * direction it leaves, `superVelocity` and `superDirection`.
     */
    method Update(deltaT: real, superVelocity: Vec2, superDirection: Vec2)
      requires Valid()
      modifies parent`velocity, parent`direction, owner`position
      ensures parent.direction == superDirection
      ensures parent.velocity.x
              == ZeroGravityVelocityX(superDirection.x, parent.speed, playerPosition.x, old(owner.position.x))
      ensures parent.velocity.y == superVelocity.y
      ensures owner.position == old(owner.position).Plus(parent.velocity.Scaled(deltaT))
    {
      parent.velocity := superVelocity;
      parent.direction := superDirection;

      parent.velocity := parent.velocity.(x := parent.direction.x * parent.speed);
      var dx := playerPosition.x - parent.owner.position.x;
      var distance := Abs(dx);
      if distance < BOOST_DISTANCE {
        parent.velocity := parent.velocity.(x := parent.velocity.x * 2.0);
      }
      owner.Move(parent.velocity.Scaled(deltaT));
    }

    /** Leaving the state stops the animation and hands nothing on to the next state. */
    method OnExit() returns (data: map<string, real>)
      modifies owner`animation
      ensures data == map[]
      ensures owner.animation == Stopped
    {
      owner.animation := Stopped;
      data := map[];
    }
  }
}
