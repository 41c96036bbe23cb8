/** What one tick does to one player before and during contact resolution
    (platformer.js, `World.prototype.updateStep`, the body of the player loop). */
module Contacts {
  import opened Options
  import opened Vectors
  import opened Collision
  import opened Bodies

  /** The player's state while the contacts of one tick are resolved. */
  datatype ContactState = ContactState(position: Vec2, velocity: Vec2, ground: Platform?, events: seq<Event>)

  /** Ground carry-along or air control: on the ground the player takes the
      platform's velocity plus its own input along x; in the air the input sets
      the horizontal speed outright and the vertical speed is kept. */
  function ControlVelocity(velocity: Vec2, factor: real, groundVelocity: Option<Vec2>,
                           groundSpeed: real, airSpeed: real): Vec2
  {
    match groundVelocity
    case Some(g) => Vec2(g.x + factor * groundSpeed, g.y)
    case None => Vec2(factor * airSpeed, velocity.y)
  }

  /** Gravity first, then the position from the new velocity. */
  function Integrate(s: ContactState, gravity: Vec2, dt: real): ContactState {
    var v := ScaleAndAdd(s.velocity, gravity, dt);
    s.(position := ScaleAndAdd(s.position, v, dt), velocity := v)
  }

  /** The ground test `normal.y > |normal.x|`, which of the four axis normals
      only UP passes. */
  function IsGroundNormal(n: Normal): (b: bool)
    ensures b <==> n == Up
  {
    NormalVec(n).y > Abs(NormalVec(n).x)
  }

  /** `dot(player.velocity - platform.velocity, normal)`. */
  function NormalSpeed(velocity: Vec2, platformVelocity: Vec2, n: Normal): real {
    Dot(Sub(velocity, platformVelocity), NormalVec(n))
  }

  /** The contact test and response against one platform `p` whose box and
      velocity are `box` and `pv`; `prev` is the ground platform the player had
      when the tick started. */
  function ContactStep(s: ContactState, p: Platform, box: Box, pv: Vec2, prev: Platform?, size: Vec2): ContactState
  {
    match Collide(box, Collision.Box(s.position, size))
    case None => s
    case Some(c) =>
      var d := NormalSpeed(s.velocity, pv, c.normal);
      if d > 0.0 then s
      else
        var position := ScaleAndAdd(s.position, NormalVec(c.normal), c.depth);
        var velocity := ScaleAndAdd(s.velocity, NormalVec(c.normal), -d);
        if IsGroundNormal(c.normal) then
          ContactState(position, velocity, p,
                       if prev == null then s.events + [Event(HitGround, p, -d)] else s.events)
        else
          ContactState(position, velocity, s.ground, s.events + [Event(HitWall, p, -d)])
  }

  /** No contact, or a separating one (the player already moves away from
      the platform along the normal): the contact changes nothing. */
  lemma IgnoredContact(s: ContactState, p: Platform, box: Box, pv: Vec2, prev: Platform?, size: Vec2)
    ensures var c := Collide(box, Collision.Box(s.position, size));
      c.None? || NormalSpeed(s.velocity, pv, c.value.normal) > 0.0 ==>
        ContactStep(s, p, box, pv, prev, size) == s
  {
  }

  /** A resolved contact pushes the player out by exactly the depth along the
      normal, cancels the relative velocity along the normal and keeps the
      velocity along the other axis; its strength is not negative. */
  lemma ResolvedContact(s: ContactState, p: Platform, box: Box, pv: Vec2, prev: Platform?, size: Vec2)
    requires Collide(box, Collision.Box(s.position, size)).Some?
    requires NormalSpeed(s.velocity, pv, Collide(box, Collision.Box(s.position, size)).value.normal) <= 0.0
    ensures var c := Collide(box, Collision.Box(s.position, size)).value;
      var r := ContactStep(s, p, box, pv, prev, size);
      && r.position == Add(s.position, Scale(NormalVec(c.normal), c.depth))
      && NormalSpeed(r.velocity, pv, c.normal) == 0.0
      && (c.normal == Left || c.normal == Right ==> r.velocity.y == s.velocity.y)
      && (c.normal == Up || c.normal == Down ==> r.velocity.x == s.velocity.x)
      && -NormalSpeed(s.velocity, pv, c.normal) >= 0.0
  {
  }

  /** The events of a contact: a resolved UP contact dispatches `hitGround`
      only when the player had no ground platform at the start of the tick,
      any other resolved contact dispatches `hitWall`; the strength is the
      relative speed into the platform. */
  lemma ContactEvents(s: ContactState, p: Platform, box: Box, pv: Vec2, prev: Platform?, size: Vec2)
    ensures var c := Collide(box, Collision.Box(s.position, size));
      var r := ContactStep(s, p, box, pv, prev, size);
      r.events == s.events +
        if c.None? || NormalSpeed(s.velocity, pv, c.value.normal) > 0.0 then []
        else if c.value.normal == Up && prev != null then []
        else [Event(if c.value.normal == Up then HitGround else HitWall, p, -NormalSpeed(s.velocity, pv, c.value.normal))]
  {
  }

  /** The ground platform becomes `p` exactly on a resolved UP contact. */
  lemma ContactGround(s: ContactState, p: Platform, box: Box, pv: Vec2, prev: Platform?, size: Vec2)
    ensures ContactStep(s, p, box, pv, prev, size).ground == if LandsOn(s, box, pv, size) then p else s.ground
  {
  }

  /** The contact loop over the platforms `ps`, in order, from state `init`. */
  function Resolve(ps: seq<Platform>, init: ContactState, prev: Platform?, size: Vec2): ContactState
    reads ps
    decreases |ps|
  {
    if ps == [] then init
    else
      var p := ps[|ps| - 1];
      ContactStep(Resolve(ps[..|ps| - 1], init, prev, size), p, p.Box(), p.velocity, prev, size)
  }

  /** The contact test against a platform with this box and velocity finds a
      contact with normal UP, and the contact is not separating. */
  predicate LandsOn(s: ContactState, box: Box, pv: Vec2, size: Vec2) {
    var c := Collide(box, Collision.Box(s.position, size));
    c.Some? && c.value.normal == Up && NormalSpeed(s.velocity, pv, Up) <= 0.0
  }

  /** The contact with `ps[k]` is resolved and is a ground (UP) contact. */
  ghost predicate GroundContactAt(ps: seq<Platform>, init: ContactState, prev: Platform?, size: Vec2, k: nat)
    requires k < |ps|
    reads ps
  {
    LandsOn(Resolve(ps[..k], init, prev, size), ps[k].Box(), ps[k].velocity, size)
  }

  /** Resolving the contacts only appends to the event log, and every appended
      event names one of the platforms and has a non-negative strength. */
  lemma {:induction false} ResolveAppendsEvents(ps: seq<Platform>, init: ContactState, prev: Platform?, size: Vec2)
    ensures var r := Resolve(ps, init, prev, size);
      && |init.events| <= |r.events|
      && r.events[..|init.events|] == init.events
      && forall i :: |init.events| <= i < |r.events| ==> r.events[i].platform in ps && r.events[i].strength >= 0.0
  {
    if ps != [] {
      var q := ps[..|ps| - 1];
      ResolveAppendsEvents(q, init, prev, size);
      var s := Resolve(q, init, prev, size);
      var p := ps[|ps| - 1];
      var r := ContactStep(s, p, p.Box(), p.velocity, prev, size);
      ContactEvents(s, p, p.Box(), p.velocity, prev, size);
      var c := Collide(p.Box(), Collision.Box(s.position, size));
      if c.Some? && NormalSpeed(s.velocity, p.velocity, c.value.normal) <= 0.0 {
        ResolvedContact(s, p, p.Box(), p.velocity, prev, size);
      }
      assert r.events[..|s.events|] == s.events;
      forall i | |init.events| <= i < |r.events|
        ensures r.events[i].platform in ps && r.events[i].strength >= 0.0
      {
        if i < |s.events| {
          assert r.events[i] == s.events[i];
          assert s.events[i].platform in q;
        }
      }
    }
  }

  /** Edge-triggered landing: a player that was already on the ground when the
      tick started gets no `hitGround` event, only `hitWall` events. */
  lemma {:induction false} NoHitGroundWhileGrounded(ps: seq<Platform>, init: ContactState, prev: Platform?, size: Vec2)
    requires prev != null
    ensures var r := Resolve(ps, init, prev, size);
      |init.events| <= |r.events| &&
      forall i :: |init.events| <= i < |r.events| ==> r.events[i].kind == HitWall
  {
    if ps != [] {
      var q := ps[..|ps| - 1];
      NoHitGroundWhileGrounded(q, init, prev, size);
      ResolveAppendsEvents(q, init, prev, size);
      var s := Resolve(q, init, prev, size);
      var p := ps[|ps| - 1];
      var r := ContactStep(s, p, p.Box(), p.velocity, prev, size);
      ContactEvents(s, p, p.Box(), p.velocity, prev, size);
      forall i | |init.events| <= i < |r.events| ensures r.events[i].kind == HitWall {
        if i < |s.events| {
          assert r.events[i] == s.events[i];
        }
      }
    }
  }

  /** The ground contact test of a prefix of the platforms is the same as in
      the whole sequence. */
  lemma GroundContactAtPrefix(ps: seq<Platform>, init: ContactState, prev: Platform?, size: Vec2, k: nat)
    requires k < |ps| - 1
    ensures GroundContactAt(ps[..|ps| - 1], init, prev, size, k) == GroundContactAt(ps, init, prev, size, k)
  {
    assert ps[..|ps| - 1][..k] == ps[..k];
  }

  /** The last platform of the loop sets the ground platform exactly on a
      resolved UP contact. */
  lemma ResolveLastGround(ps: seq<Platform>, init: ContactState, prev: Platform?, size: Vec2)
    requires ps != []
    ensures Resolve(ps, init, prev, size).ground ==
      if GroundContactAt(ps, init, prev, size, |ps| - 1) then ps[|ps| - 1]
      else Resolve(ps[..|ps| - 1], init, prev, size).ground
  {
    var p := ps[|ps| - 1];
    ContactGround(Resolve(ps[..|ps| - 1], init, prev, size), p, p.Box(), p.velocity, prev, size);
  }

  /** Without a resolved UP contact the ground platform is what it was
      before the contact loop. */
  lemma {:induction false} ResolveKeepsGround(ps: seq<Platform>, init: ContactState, prev: Platform?, size: Vec2)
    requires forall k :: 0 <= k < |ps| ==> !GroundContactAt(ps, init, prev, size, k)
    ensures Resolve(ps, init, prev, size).ground == init.ground
  {
    if ps != [] {
      var n := |ps| - 1;
      var q := ps[..n];
      forall k | 0 <= k < n ensures !GroundContactAt(q, init, prev, size, k) {
        GroundContactAtPrefix(ps, init, prev, size, k);
      }
      ResolveKeepsGround(q, init, prev, size);
      ResolveLastGround(ps, init, prev, size);
    }
  }

  /** At the end of the contact loop the ground platform is the platform of
      the last resolved UP contact. */
  lemma {:induction false} ResolveLastUpContact(ps: seq<Platform>, init: ContactState, prev: Platform?, size: Vec2, k: nat)
    requires k < |ps| && GroundContactAt(ps, init, prev, size, k)
    requires forall j :: k < j < |ps| ==> !GroundContactAt(ps, init, prev, size, j)
    ensures Resolve(ps, init, prev, size).ground == ps[k]
  {
    var n := |ps| - 1;
    ResolveLastGround(ps, init, prev, size);
    if k < n {
      var q := ps[..n];
      GroundContactAtPrefix(ps, init, prev, size, k);
      forall j | k < j < n ensures !GroundContactAt(q, init, prev, size, j) {
        GroundContactAtPrefix(ps, init, prev, size, j);
      }
      ResolveLastUpContact(q, init, prev, size, k);
    }
  }
}
