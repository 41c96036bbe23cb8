/** `platformer.World`: the body collections, the fixed-timestep driver and
    one simulation tick. */
module Platformer {
  import opened Options
  import opened Vectors
  import opened Collision
  import opened Bodies
  import opened Contacts
  import opened JsArrays
  import opened FixedStep

  /** The velocity of a ground platform, or none when the player is airborne. */
  function GroundVelocity(g: Platform?): (r: Option<Vec2>)
    reads g
    ensures r.Some? <==> g != null
  {
    if g == null then None else Some(g.velocity)
  }

  /** `n` copies of `x`. */
  function Repeat(x: real, n: nat): seq<real> {
    seq(n, _ => x)
  }

  lemma RepeatOneMore(x: real, n: nat)
    ensures Repeat(x, n + 1) == Repeat(x, n) + [x]
  {
  }

  class World {
    var gravity: Vec2
    var timeStep: real
    var remainingUpdateTime: real
    var platforms: seq<Platform>
    var players: seq<Player>
    /** The `dt` given to every tick run so far, oldest first. */
    ghost var stepLog: seq<real>

    ghost predicate Valid()
      reads this
    {
      && timeStep > 0.0
      && remainingUpdateTime < timeStep
      && Distinct(platforms)
      && Distinct(players)
    }

    /** `new platformer.World(options)`: gravity (0, -9.8) and time step 0.01
        unless given (a time step of 0 also falls back to 0.01). */
    constructor (gravity: Option<Vec2>, timeStep: Option<real>)
      requires timeStep.None? || timeStep.value >= 0.0
      ensures Valid()
      ensures this.gravity == VectorOr(gravity, Vec2(0.0, -9.8))
      ensures this.timeStep == NumberOr(timeStep, 0.01)
      ensures remainingUpdateTime == 0.0 && platforms == [] && players == [] && stepLog == []
    {
      this.gravity := VectorOr(gravity, Vec2(0.0, -9.8));
      this.timeStep := NumberOr(timeStep, 0.01);
      remainingUpdateTime := 0.0;
      platforms := [];
      players := [];
      stepLog := [];
    }

    /** Creates a platform and appends it to the platforms. */
    method CreatePlatform(position: Option<Vec2>, size: Option<Vec2>) returns (p: Platform)
      requires Valid()
      modifies this`platforms
      ensures Valid() && fresh(p)
      ensures platforms == old(platforms) + [p]
      ensures p.position == VectorOr(position, Zero) && p.size == VectorOr(size, Vec2(1.0, 1.0))
      ensures p.lastFramePosition == p.position && p.velocity == Zero
    {
      p := new Platform(position, size);
      platforms := platforms + [p];
    }

    /** `platforms.splice(platforms.indexOf(p), 1)`: removes `p`, or the last
        platform when `p` is not in the world. No player's `groundPlatform`
        is cleared. */
    method DestroyPlatform(p: Platform)
      requires Valid()
      modifies this`platforms
      ensures Valid()
      ensures platforms == RemoveByIdentity(old(platforms), p)
      ensures p in old(platforms) ==> p !in platforms
    {
      RemovePreservesDistinct(platforms, p);
      platforms := SpliceOne(platforms, IndexOf(platforms, p));
    }

    /** Creates a player and appends it to the players. */
    method CreatePlayer(position: Option<Vec2>, velocity: Option<Vec2>, size: Option<Vec2>,
                        groundSpeed: Option<real>, airSpeed: Option<real>, jumpSpeed: Option<real>)
      returns (p: Player)
      requires Valid()
      modifies this`players
      ensures Valid() && fresh(p)
      ensures players == old(players) + [p]
      ensures p.position == VectorOr(position, Zero) && p.velocity == VectorOr(velocity, Zero)
      ensures p.size == VectorOr(size, Vec2(1.0, 1.0))
      ensures p.groundSpeed == NumberOr(groundSpeed, 4.0) && p.airSpeed == NumberOr(airSpeed, 4.0)
      ensures p.jumpSpeed == NumberOr(jumpSpeed, 5.0)
      ensures p.horizontalInputFactor == 0.0 && p.groundPlatform == null && p.events == []
    {
      p := new Player(position, velocity, size, groundSpeed, airSpeed, jumpSpeed);
      players := players + [p];
    }

    /** `players.splice(players.indexOf(p), 1)`: removes `p`, or the last
        player when `p` is not in the world. */
    method DestroyPlayer(p: Player)
      requires Valid()
      modifies this`players
      ensures Valid()
      ensures players == RemoveByIdentity(old(players), p)
      ensures p in old(players) ==> p !in players
    {
      RemovePreservesDistinct(players, p);
      players := SpliceOne(players, IndexOf(players, p));
    }

    /** The state a tick gives `player` when it had state `before`, with the
        platforms as the platform loop of that tick left them. */
    function TickedState(player: Player, before: PlayerState, dt: real): PlayerState
      reads this, player, platforms, before.groundPlatform
    {
      var v := ControlVelocity(before.velocity, before.horizontalInputFactor,
                               GroundVelocity(before.groundPlatform), player.groundSpeed, player.airSpeed);
      var m := Integrate(ContactState(before.position, v, null, before.events), gravity, dt);
      var r := Resolve(platforms, m, before.groundPlatform, player.size);
      PlayerState(r.position, r.velocity, 0.0, r.ground, r.events)
    }

    /** The body of the player loop of `updateStep` for one player. */
    method UpdatePlayer(player: Player, dt: real)
      modifies player`position, player`velocity, player`horizontalInputFactor,
               player`groundPlatform, player`events
      ensures player.State() == TickedState(player, old(player.State()), dt)
    {
      ghost var before := player.State();
      ghost var control := ControlVelocity(before.velocity, before.horizontalInputFactor,
                                           GroundVelocity(before.groundPlatform), player.groundSpeed, player.airSpeed);
      ghost var moved := Integrate(ContactState(before.position, control, null, before.events), gravity, dt);
      var ground := player.groundPlatform;
      if ground != null {
        // carried along by the platform, plus ground control
        player.velocity := ground.velocity;
        player.velocity := Vec2(player.velocity.x + player.horizontalInputFactor * player.groundSpeed,
                                player.velocity.y);
      } else {
        // air control
        player.velocity := Vec2(player.horizontalInputFactor * player.airSpeed, player.velocity.y);
      }
      assert player.velocity == control;
      player.horizontalInputFactor := 0.0;
      player.velocity := ScaleAndAdd(player.velocity, gravity, dt);
      player.position := ScaleAndAdd(player.position, player.velocity, dt);
      assert player.position == moved.position && player.velocity == moved.velocity;

      var previousGroundPlatform := player.groundPlatform;
      player.groundPlatform := null;
      ResolveContacts(player, previousGroundPlatform);
    }

    /** The contact loop of one player: every platform in order, starting
        with no ground platform. */
    method ResolveContacts(player: Player, previousGroundPlatform: Platform?)
      modifies player`position, player`velocity, player`groundPlatform, player`events
      ensures ContactState(player.position, player.velocity, player.groundPlatform, player.events)
        == Resolve(platforms, ContactState(old(player.position), old(player.velocity), old(player.groundPlatform), old(player.events)),
                   previousGroundPlatform, player.size)
    {
      ghost var init := ContactState(player.position, player.velocity, player.groundPlatform, player.events);
      for i := 0 to |platforms|
        invariant ContactState(player.position, player.velocity, player.groundPlatform, player.events)
                  == Resolve(platforms[..i], init, previousGroundPlatform, player.size)
      {
        assert platforms[..i + 1][..i] == platforms[..i];
        ResolveContact(player, platforms[i], previousGroundPlatform);
      }
      assert platforms[..|platforms|] == platforms;
    }

    /** One iteration of the contact loop: the contact test of `platform`
        against `player` and, unless there is no contact or it is
        separating, its resolution and its event. */
    method ResolveContact(player: Player, platform: Platform, previousGroundPlatform: Platform?)
      modifies player`position, player`velocity, player`groundPlatform, player`events
      ensures ContactState(player.position, player.velocity, player.groundPlatform, player.events)
        == ContactStep(ContactState(old(player.position), old(player.velocity), old(player.groundPlatform), old(player.events)),
                       platform, platform.Box(), platform.velocity, previousGroundPlatform, player.size)
    {
      var contact := Collide(platform.Box(), player.Box());
      if contact.Some? {
        var normal := NormalVec(contact.value.normal);
        var relativeVelocityDotNormal := Dot(Sub(player.velocity, platform.velocity), normal);
        // a separating contact is left alone
        if relativeVelocityDotNormal > 0.0 {
          return;
        }
        // push out of the platform, keep only the tangential velocity
        player.position := ScaleAndAdd(player.position, normal, contact.value.depth);
        player.velocity := ScaleAndAdd(player.velocity, normal, -relativeVelocityDotNormal);
        if IsGroundNormal(contact.value.normal) {
          player.groundPlatform := platform;
          if previousGroundPlatform == null {
            player.events := player.events + [Event(HitGround, platform, -relativeVelocityDotNormal)];
          }
        } else {
          player.events := player.events + [Event(HitWall, platform, -relativeVelocityDotNormal)];
        }
      }
    }

    /** The platform loop of `updateStep`: every platform's velocity becomes
        its displacement since the last tick divided by `dt`, and the current
        position is remembered for the next tick. */
    method DerivePlatformVelocities(dt: real)
      requires dt > 0.0 && Distinct(platforms)
      modifies platforms
      ensures forall k :: 0 <= k < |platforms| ==>
        && platforms[k].velocity == Scale(Sub(old(platforms[k].position), old(platforms[k].lastFramePosition)), 1.0 / dt)
        && ScaleAndAdd(old(platforms[k].lastFramePosition), platforms[k].velocity, dt) == platforms[k].position
        && platforms[k].lastFramePosition == platforms[k].position
        && platforms[k].position == old(platforms[k].position)
        && platforms[k].size == old(platforms[k].size)
    {
      for i := 0 to |platforms|
        invariant forall k :: 0 <= k < i ==>
          && platforms[k].velocity == Scale(Sub(old(platforms[k].position), old(platforms[k].lastFramePosition)), 1.0 / dt)
          && platforms[k].lastFramePosition == platforms[k].position
        invariant forall k :: i <= k < |platforms| ==> unchanged(platforms[k])
        invariant forall k :: 0 <= k < |platforms| ==>
          platforms[k].position == old(platforms[k].position) && platforms[k].size == old(platforms[k].size)
      {
        var platform := platforms[i];
        platform.velocity := Scale(Sub(platform.position, platform.lastFramePosition), 1.0 / dt);
        platform.lastFramePosition := platform.position;
      }
      forall k | 0 <= k < |platforms|
        ensures ScaleAndAdd(old(platforms[k].lastFramePosition), platforms[k].velocity, dt) == platforms[k].position
      {
        var d := Sub(old(platforms[k].position), old(platforms[k].lastFramePosition));
        assert d.x * (1.0 / dt) * dt == d.x && d.y * (1.0 / dt) * dt == d.y;
      }
    }

    /** `updateStep(dt)`: derives every platform's velocity from its
        displacement, then runs the player loop. The player loop and the
        platform loop inside it share one counter, which the platform loop
        leaves at `|platforms|`; the player loop's increment then makes it
        `|platforms| + 1`, so only the first player is updated, and the loop
        would never end if there were more than `|platforms| + 1` players. */
    method UpdateStep(dt: real)
      requires dt > 0.0 && Distinct(platforms) && Distinct(players)
      requires |players| <= |platforms| + 1
      modifies this`stepLog, platforms, if |players| > 0 then {players[0]} else {}
      ensures stepLog == old(stepLog) + [dt]
      ensures forall k :: 1 <= k < |players| ==> unchanged(players[k])
      ensures forall k :: 0 <= k < |platforms| ==>
        && platforms[k].velocity == Scale(Sub(old(platforms[k].position), old(platforms[k].lastFramePosition)), 1.0 / dt)
        && ScaleAndAdd(old(platforms[k].lastFramePosition), platforms[k].velocity, dt) == platforms[k].position
        && platforms[k].lastFramePosition == platforms[k].position
        && platforms[k].position == old(platforms[k].position)
        && platforms[k].size == old(platforms[k].size)
      ensures |players| > 0 ==>
        && players[0].State() == TickedState(players[0], old(players[0].State()), dt)
        && players[0].size == old(players[0].size)
        && players[0].groundSpeed == old(players[0].groundSpeed)
        && players[0].airSpeed == old(players[0].airSpeed)
        && players[0].jumpSpeed == old(players[0].jumpSpeed)
    {
      stepLog := stepLog + [dt];
      DerivePlatformVelocities(dt);
      label Derived:
      var i := 0;
      while i < |players|
        invariant i == 0 || i == |platforms| + 1
        invariant stepLog == old(stepLog) + [dt]
        invariant forall k :: 0 <= k < |platforms| ==> unchanged@Derived(platforms[k])
        invariant |players| > 0 ==>
          && players[0].size == old(players[0].size)
          && players[0].groundSpeed == old(players[0].groundSpeed)
          && players[0].airSpeed == old(players[0].airSpeed)
          && players[0].jumpSpeed == old(players[0].jumpSpeed)
        invariant i == 0 && |players| > 0 ==> unchanged(players[0])
        invariant i > 0 ==>
          |players| > 0 && players[0].State() == TickedState(players[0], old(players[0].State()), dt)
        decreases |players| - i
      {
        UpdatePlayer(players[i], dt);
        // where the inner platform loop leaves the shared counter
        i := |platforms|;
        i := i + 1;
      }
    }

    /** `update(dt)`: adds `dt` to the accumulated time and runs one tick of
        `timeStep` for every whole time step accumulated, keeping the rest. */
    method Update(dt: real)
      requires Valid()
      requires |players| <= |platforms| + 1 || remainingUpdateTime + dt < timeStep
      modifies this`remainingUpdateTime, this`stepLog, platforms, if |players| > 0 then {players[0]} else {}
      ensures Valid()
      ensures forall k :: 1 <= k < |players| ==> unchanged(players[k])
      ensures var k := StepCount(old(remainingUpdateTime) + dt, timeStep);
        && remainingUpdateTime == Leftover(old(remainingUpdateTime) + dt, k, timeStep)
        && stepLog == old(stepLog) + Repeat(timeStep, k)
    {
      remainingUpdateTime := remainingUpdateTime + dt;
      ghost var total := remainingUpdateTime;
      ghost var k := StepCount(total, timeStep);
      ghost var n: nat := 0;
      while remainingUpdateTime >= timeStep
        invariant n <= k
        invariant timeStep > 0.0 && Distinct(platforms) && Distinct(players)
        invariant |players| <= |platforms| + 1 || total < timeStep
        invariant platforms == old(platforms) && players == old(players)
        invariant remainingUpdateTime == Leftover(total, n, timeStep)
        invariant stepLog == old(stepLog) + Repeat(timeStep, n)
        invariant forall j :: 1 <= j < |players| ==> unchanged(players[j])
        decreases k - n
      {
        // a tick is due, so the shared loop counter of `updateStep` terminates
        LeftoverAntitone(total, 0, n, timeStep);
        assert |players| <= |platforms| + 1;
        remainingUpdateTime := remainingUpdateTime - timeStep;
        UpdateStep(timeStep);
        RepeatOneMore(timeStep, n);
        LeftoverNext(total, n, timeStep);
        n := n + 1;
      }
    }
  }

  /** A player sunk by `e > 0` into the top of a platform, and by more than
      `e` into both of its sides, collides with normal UP and depth `e`. */
  lemma SinksIntoTop(platform: Box, player: Box, e: real)
    requires e > 0.0 && Overlap(platform, player, Up) == e
    requires Overlap(platform, player, Right) > e && Overlap(platform, player, Left) > e
    requires Overlap(platform, player, Down) >= e
    ensures Collide(platform, player) == Some(Contact(e, Up))
  {
    CollideSpec(platform, player);
    assert !Disjoint(platform, player);
    var n := Collide(platform, player).value.normal;
    assert Rank(n) <= Rank(Up);
  }

  /** The contact of a player sinking at speed `-vy` into the top of a
      static platform under it is resolved to the top, with zero velocity. */
  lemma LandsAtRest(s: ContactState, p: Platform, box: Box, size: Vec2, e: real, vy: real)
    requires s.velocity == Vec2(0.0, vy) && vy < 0.0
    requires Collide(box, Collision.Box(s.position, size)) == Some(Contact(e, Up))
    ensures ContactStep(s, p, box, Zero, p, size) ==
      ContactState(Vec2(s.position.x, s.position.y + e), Zero, p, s.events)
  {
    assert NormalSpeed(s.velocity, Zero, Up) == vy;
    ContactGround(s, p, box, Zero, p, size);
  }

  /** The landing tick of a falling player: the same contact, with no ground
      platform at the start of the tick, grounds the player on `p` and
      dispatches exactly one `hitGround` whose strength is the impact speed. */
  lemma FirstLanding(s: ContactState, p: Platform, box: Box, size: Vec2, e: real, vy: real)
    requires s.velocity == Vec2(0.0, vy) && vy < 0.0
    requires Collide(box, Collision.Box(s.position, size)) == Some(Contact(e, Up))
    ensures ContactStep(s, p, box, Zero, null, size) ==
      ContactState(Vec2(s.position.x, s.position.y + e), Zero, p, s.events + [Event(HitGround, p, -vy)])
  {
    assert NormalSpeed(s.velocity, Zero, Up) == vy;
    ContactEvents(s, p, box, Zero, null, size);
  }

  /** A player standing at rest on a static platform with no input stays put
      and grounded, and gets no event, so after landing once it gets no second
      `hitGround`. Its velocity is zero afterwards whatever it was before,
      since a grounded player takes the platform's velocity. */
  lemma RestingIsIdempotent(w: World, player: Player, p: Platform, dt: real)
    requires dt > 0.0 && w.platforms == [p] && p.velocity == Zero
    requires w.gravity.x == 0.0 && w.gravity.y < 0.0
    requires player.groundPlatform == p && player.horizontalInputFactor == 0.0
    requires player.position.y == p.position.y + p.size.y
    requires var e := -w.gravity.y * dt * dt;
      && p.position.x + p.size.x - player.position.x > e
      && player.position.x + player.size.x - p.position.x > e
      && p.size.y + player.size.y >= e + e
    ensures var s := player.State();
      w.TickedState(player, s, dt) == PlayerState(s.position, Zero, 0.0, p, s.events)
  {
    var s := player.State();
    var e := -w.gravity.y * dt * dt;
    var vy := w.gravity.y * dt;
    assert vy < 0.0 && e > 0.0;
    var init := ContactState(Vec2(s.position.x, s.position.y - e), Vec2(0.0, vy), null, s.events);
    assert Integrate(ContactState(s.position, Zero, null, s.events), w.gravity, dt) == init;
    SinksIntoTop(p.Box(), Collision.Box(init.position, player.size), e);
    LandsAtRest(init, p, p.Box(), player.size, e, vy);
    assert w.platforms[..0] == [];
    assert Resolve(w.platforms, init, p, player.size) == ContactStep(init, p, p.Box(), Zero, p, player.size);
  }
}
