/** The two kinds of body, `platformer.Platform` and `platformer.Player`, with
    the player's control surface (`moveHorizontally`, `jump`). */
module Bodies {
  import opened Options
  import opened Vectors
  import opened Collision

  datatype EventKind = HitGround | HitWall

  /** An event dispatched to the player's listeners: `{type, platform, strength}`. */
  datatype Event = Event(kind: EventKind, platform: Platform, strength: real)

  /** A platform. External code moves it between ticks; each tick derives its
      velocity from how far it moved since the previous tick. */
  class Platform {
    var position: Vec2
    var size: Vec2
    var velocity: Vec2
    var lastFramePosition: Vec2

    /** `new platformer.Platform(options)`, defaults position (0,0), size (1,1). */
    constructor (position: Option<Vec2>, size: Option<Vec2>)
      ensures this.position == VectorOr(position, Zero)
      ensures this.size == VectorOr(size, Vec2(1.0, 1.0))
      ensures lastFramePosition == this.position
      ensures velocity == Zero
    {
      this.position := VectorOr(position, Zero);
      this.size := VectorOr(size, Vec2(1.0, 1.0));
      lastFramePosition := VectorOr(position, Zero);
      velocity := Zero;
    }

    function Box(): Box
      reads this
    {
      Collision.Box(position, size)
    }
  }

  /** The part of a player's state that a simulation tick changes. */
  datatype PlayerState = PlayerState(
    position: Vec2,
    velocity: Vec2,
    horizontalInputFactor: real,
    groundPlatform: Platform?,
    events: seq<Event>)

  /** A player: a box moved by input and gravity. `groundPlatform` is the
      platform it stood on at the end of the last tick, or null. `events` is
      the log of every event dispatched to it, oldest first. */
  class Player {
    var position: Vec2
    var velocity: Vec2
    var size: Vec2
    var groundSpeed: real
    var airSpeed: real
    var jumpSpeed: real
    var horizontalInputFactor: real
    var groundPlatform: Platform?
    var events: seq<Event>

    /** `new platformer.Player(options)`, defaults position (0,0), velocity
        (0,0), size (1,1), groundSpeed 4, airSpeed 4, jumpSpeed 5. */
    constructor (position: Option<Vec2>, velocity: Option<Vec2>, size: Option<Vec2>,
                 groundSpeed: Option<real>, airSpeed: Option<real>, jumpSpeed: Option<real>)
      ensures this.position == VectorOr(position, Zero)
      ensures this.velocity == VectorOr(velocity, Zero)
      ensures this.size == VectorOr(size, Vec2(1.0, 1.0))
      ensures this.groundSpeed == NumberOr(groundSpeed, 4.0)
      ensures this.airSpeed == NumberOr(airSpeed, 4.0)
      ensures this.jumpSpeed == NumberOr(jumpSpeed, 5.0)
      ensures horizontalInputFactor == 0.0 && groundPlatform == null && events == []
    {
      this.position := VectorOr(position, Zero);
      this.velocity := VectorOr(velocity, Zero);
      this.size := VectorOr(size, Vec2(1.0, 1.0));
      this.groundSpeed := NumberOr(groundSpeed, 4.0);
      this.airSpeed := NumberOr(airSpeed, 4.0);
      this.jumpSpeed := NumberOr(jumpSpeed, 5.0);
      horizontalInputFactor := 0.0;
      groundPlatform := null;
      events := [];
    }

    function Box(): Box
      reads this
    {
      Collision.Box(position, size)
    }

    function State(): PlayerState
      reads this
    {
      PlayerState(position, velocity, horizontalInputFactor, groundPlatform, events)
    }

    /** Records the horizontal intent for the next tick only. */
    method MoveHorizontally(factor: real)
      modifies this`horizontalInputFactor
      ensures horizontalInputFactor == factor
    {
      horizontalInputFactor := factor;
    }

    /** Adds the jump speed to the vertical velocity and leaves the ground. */
    method Jump()
      modifies this`velocity, this`groundPlatform
      ensures velocity == Vec2(old(velocity).x, old(velocity).y + jumpSpeed)
      ensures groundPlatform == null
    {
      velocity := Vec2(velocity.x, velocity.y + jumpSpeed);
      groundPlatform := null;
    }
  }
}
