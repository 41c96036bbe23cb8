# platformer.js in Dafny

A model of platformer.js, a small library for the movement of 2D platformer
characters. A `World` holds axis-aligned platforms and players. It turns
variable frame times into fixed ticks. In each tick it:

- derives every platform's velocity from how far the platform moved since the last tick;
- carries a grounded player along with its platform, or applies air control;
- applies gravity and integrates the position;
- pushes the player out of every platform it overlaps, along the face of least
  penetration, and removes the relative velocity along that face's normal;
- dispatches `hitGround` when the player lands and `hitWall` for every other
  resolved contact.

Coordinates are exact `real`s. A normal is one of the four axis directions.
`Platform`, `Player` and `World` are classes, because the library relies on
object identity (`groundPlatform`, `indexOf`, the platform named in an event).

Modules, in dependency order:

- `Options`: optional construction parameters and JavaScript's `x || default`.
- `Vectors`: pairs of reals, with the `vec2` operations the library calls (subtract, scale, scaleAndAdd, dot). `clone`, `create`, `fromValues` and `copy` become plain values. `Add` is used only to state results.
- `Collision`: `Platform.prototype.collide` as a pure function from two boxes to an optional contact (depth, normal).
- `Bodies`: the `Platform` and `Player` classes, `moveHorizontally` and `jump`.
- `Contacts`: what a tick does to one player. This holds the control velocity,
  the integration and the response to one contact (`ContactStep`). It also holds
  the contact loop as a left fold over the platforms (`Resolve`), with the lemmas
  about both.
- `JsArrays`: `indexOf` and `splice(start, 1)` with JavaScript's semantics.
- `FixedStep`: how many ticks the accumulator loop of `update` runs, and what time it leaves over.
- `Platformer`: the `World` class with `update`, `updateStep` and the create and destroy operations.

Behaviour of the code that the model keeps on purpose:

- **Shared loop counter.** In `updateStep` the player loop and the platform loop
  inside it share one counter. After the first player, the counter is
  `|platforms| + 1`. So only `players[0]` is updated when
  `|players| <= |platforms| + 1`, and the loop never ends otherwise.
  `World.UpdateStep` writes the loop with that shared counter. Its precondition
  `|players| <= |platforms| + 1` is exactly what makes the loop terminate. It
  states that `players[0]` gets the tick and every other player is unchanged.
- **Destroying something absent.** `destroyPlatform` and `destroyPlayer` call
  `splice(indexOf(x), 1)`. When `x` is absent, `indexOf` gives -1 and the
  splice removes the last element.
- **No reference clearing.** Neither destroy operation clears a player's
  `groundPlatform`. In the next tick a player can still be carried along by the
  velocity of a platform no longer in the world. That velocity is no longer
  updated.
- **Negative frame times.** A negative `dt` given to `update` is added to the
  accumulated time. It is not ignored.
- **Falsy options.** An option of 0 falls back to its default, because `||`
  treats 0 as false. This applies to `timeStep`, `groundSpeed`, `airSpeed` and
  `jumpSpeed`.

## Model

| member | source | states |
|---|---|---|
| `Collision.Collide` | platformer.js:236-261 | `collide` as a scan of the four faces in the order RIGHT, LEFT, UP, DOWN. It has no contract of its own; `CollideSpec` states what it computes. |
| `Collision.CollideSpec` | platformer.js:236-261 | collide finds no contact exactly when one of the four face overlaps is negative, so an overlap of 0 is a contact. Otherwise the depth is the least of the four overlaps. The normal is the first face, in the order RIGHT, LEFT, UP, DOWN, that reaches it: the strict `<` gives ties to the earlier face. |
| `Collision.ContactDepthNonNegative` | platformer.js:240-253 | the depth of a contact is never negative |
| `Contacts.ControlVelocity` | platformer.js:110-122 | ground carry-along plus ground control, or air control. It has no contract of its own; `TickedState` uses it and `UpdatePlayer` is proved against it. |
| `Contacts.Integrate` | platformer.js:127-131 | gravity first, then the position from the new velocity. It has no contract of its own; `UpdatePlayer` is proved against it and `RestingIsIdempotent` uses it. |
| `Contacts.IsGroundNormal` | platformer.js:155 | the ground test `normal.y > abs(normal.x)` holds for UP and for no other axis normal |
| `Contacts.ContactStep` | platformer.js:138-166 | one iteration of the contact loop. It has no contract of its own; `IgnoredContact`, `ResolvedContact`, `ContactEvents` and `ContactGround` state its properties, and `World.ResolveContact` is proved against it. |
| `Contacts.IgnoredContact` | platformer.js:139-146 | with no contact, or with a separating one (`dot(relative velocity, normal) > 0`), the contact leaves position, velocity, ground platform and events unchanged |
| `Contacts.ResolvedContact` | platformer.js:148-152 | a resolved contact moves the position by exactly normal times depth. Afterwards the relative velocity along the normal is 0. The velocity along the other axis is unchanged. The strength `-dot` is not negative. |
| `Contacts.ContactEvents` | platformer.js:154-165 | a resolved UP contact appends `hitGround(platform, -dot)` only when the player had no ground platform at the start of the tick. Every other resolved contact appends `hitWall(platform, -dot)`. Ignored contacts append nothing. |
| `Contacts.ContactGround` | platformer.js:155-157 | the ground platform becomes the platform exactly on a resolved UP contact, and is kept otherwise |
| `Contacts.Resolve` | platformer.js:136-167 | the contact loop as a left fold of `ContactStep` over the platforms in order. It has no contract of its own; the four lemmas below state its properties, and `World.ResolveContacts` is proved against it. |
| `Contacts.ResolveAppendsEvents` | platformer.js:136-167 | the contact loop only appends to the event log. Every appended event names one of the platforms and has a non-negative strength. |
| `Contacts.NoHitGroundWhileGrounded` | platformer.js:134-165 | edge-triggered landing: a player that had a ground platform at the start of the tick gets only `hitWall` events |
| `Contacts.ResolveKeepsGround` | platformer.js:134-167 | with no resolved UP contact in the loop, the ground platform is what it was before the loop (null, as the tick sets it) |
| `Contacts.ResolveLastUpContact` | platformer.js:134-167 | after the loop, the ground platform is the platform of the last resolved UP contact |
| `JsArrays.IndexOf` | platformer.js:53 | `indexOf` returns the first index holding the element, or -1 exactly when it is absent |
| `JsArrays.SpliceOne` | platformer.js:53 | `splice(start, 1)`, where a negative start counts from the end. It has no contract of its own; `RemoveByIdentity` states its effect when the start comes from `indexOf`. |
| `JsArrays.RemoveByIdentity` | platformer.js:53 | `splice(indexOf(x), 1)` removes the first `x` when present. When `x` is absent it removes the last element, and it leaves an empty array empty. |
| `JsArrays.RemovePreservesDistinct` | platformer.js:51-67 | removing keeps the elements distinct, and a removed body that was present is gone |
| `FixedStep.StepCount` | platformer.js:72-77 | the loop runs the least number of ticks k after which `total - k * timeStep < timeStep` |
| `FixedStep.RemainingAfter` | platformer.js:72-77 | after `update(dt)` the accumulated time left over is less than one time step |
| `FixedStep.StepCountUnique` | platformer.js:73-76 | a count that leaves less than one step, while one count fewer does not, is the step count |
| `FixedStep.SplitUpdate` | platformer.js:70-78 | two calls `update(a)` and `update(b)` with `b >= 0` run as many ticks as `update(a + b)` and leave the same remaining time |
| `Options.VectorOr` | platformer.js:266-268 | `option or [default]` for a vector: a given vector is always used, since a JavaScript array is never falsy (also lines 31 and 219-220). It has no contract of its own; the constructors state the resulting fields with it. |
| `Options.NumberOr` | platformer.js:274-276 | `option or fallback` for a number: a non-zero default never yields 0, so the speeds (and `timeStep`, line 34) are never 0 |
| `Bodies.Platform.constructor` | platformer.js:217-226 | a new platform has the given or default position (0,0) and size (1,1), `lastFramePosition` equal to its position, and velocity 0 |
| `Bodies.Player.constructor` | platformer.js:264-279 | a new player has the given or default position, velocity and size, and speeds 4, 4, 5 unless given and not 0. Its input factor is 0, it has no ground platform and no events. |
| `Bodies.Player.MoveHorizontally` | platformer.js:283-286 | sets the input factor and nothing else |
| `Bodies.Player.Jump` | platformer.js:288-292 | adds `jumpSpeed` to the vertical velocity, clears the ground platform, and changes nothing else |
| `Platformer.World.constructor` | platformer.js:27-41 | a new world has gravity (0, -9.8) and time step 0.01 unless given, nothing accumulated and no bodies |
| `Platformer.World.CreatePlatform` | platformer.js:43-49 | appends a fresh platform |
| `Platformer.World.DestroyPlatform` | platformer.js:51-54 | the platforms become `splice(indexOf(p), 1)` of the old ones, and no `groundPlatform` is touched |
| `Platformer.World.CreatePlayer` | platformer.js:56-62 | appends a fresh player |
| `Platformer.World.DestroyPlayer` | platformer.js:64-67 | the players become `splice(indexOf(p), 1)` of the old ones |
| `Platformer.World.DerivePlatformVelocities` | platformer.js:92-103 | each platform's velocity becomes (position - old lastFramePosition) / dt, so old lastFramePosition + velocity * dt is the position. `lastFramePosition` becomes the position. Position and size are unchanged. |
| `Platformer.World.TickedState` | platformer.js:108-167 | the state one tick gives a player: control velocity, factor reset to 0, `Integrate`, then `Resolve` from no ground platform. It has no contract of its own; `UpdatePlayer` is proved against it and `RestingIsIdempotent` is stated with it. |
| `Platformer.World.UpdatePlayer` | platformer.js:108-167 | the player's new state is `TickedState`. That is: ground carry-along plus ground control, or air control; the factor reset to 0; gravity applied, then the position integrated; then the contact loop, starting with no ground platform. |
| `Platformer.World.ResolveContacts` | platformer.js:134-167 | the contact loop leaves the player in the state of the fold `Resolve` over the platforms in order |
| `Platformer.World.ResolveContact` | platformer.js:138-166 | one iteration of the contact loop is `ContactStep` |
| `Platformer.World.UpdateStep` | platformer.js:80-173 | the platform velocities are derived first. Then, because of the shared loop counter, only `players[0]` gets its tick, and every other player is unchanged. |
| `Platformer.World.Update` | platformer.js:70-78 | requires at most one player more than there are platforms only when a tick is due. It runs `StepCount(remaining + dt, timeStep)` ticks, each given `dt = timeStep`, and leaves `remaining + dt - k * timeStep`, which is less than `timeStep` |
| `Platformer.SinksIntoTop` | platformer.js:240-260 | a player sunk by `e > 0` into a platform's top, by more than `e` into both sides and by at least `e` from below (the DOWN overlap), collides with normal UP and depth `e` |
| `Platformer.LandsAtRest` | platformer.js:141-161 | a player moving straight down into a static platform, whose contact with it is the UP face of depth `e`, and whose ground platform at the start of the tick was that same platform, is pushed up by `e` to zero velocity, stays grounded on it and gets no event |
| `Platformer.FirstLanding` | platformer.js:141-161 | the same contact with no ground platform at the start of the tick (a falling player) pushes it up by `e` to zero velocity, grounds it on the platform and appends exactly one `hitGround` whose strength is the impact speed |
| `Platformer.RestingIsIdempotent` | platformer.js:110-165 | in a world whose only platform is static, under gravity (0, g) with g < 0, a player with no input standing on top of that platform as its ground platform, with both horizontal overlaps above `-g*dt*dt` and the two heights summing to at least `-2*g*dt*dt`, keeps its position, stays on that platform and gets no event; its velocity becomes 0. |

## Left out

- Debug rendering (`enableDebug`, `disableDebug`, `drawDebug` and the call at the end of `updateStep`): canvas drawing with no effect on the simulation.
- The `vec2` library (gl-matrix) is not part of this model. Its operations are written out on pairs of reals.
- `EventDispatcher` is not part of this model. `dispatchEvent` appends to the player's `events` log. Listener registration and delivery are left out, and so is a listener that changes the world during a tick.
- Floating point: arithmetic is exact, so rounding in `1.0 / dt` and in the accumulator is not modelled.
- Option parsing beyond the resulting field values. Options are `Option` parameters. JavaScript's `||` is modelled for numbers (0 falls back) and for vectors (never falsy).
- `jump(dt)`: the unused `dt` parameter is dropped.
- `Platformer.World.UpdateStep`: requires `dt > 0`, because the source divides by `dt`. It also requires `|players| <= |platforms| + 1`, because with more players the shared loop counter never reaches the end and the source loops forever.
- `Platformer.World.UpdateStep`: requires the platforms (and players) to be distinct objects. The world only ever appends fresh bodies and removes them, so this holds for every world built through its operations (`World.Valid`).
- `Platformer.World.constructor`: requires a given time step not to be negative. The source accepts a negative one, and then `update` loops forever.
- `Platformer.World.Update`: states the new accumulated time and the number and `dt` of the ticks. It does not state the final body states as a function of the old ones; each tick's effect is stated by `World.UpdateStep`.
- Concrete multi-tick scenarios, such as a player falling for one second onto a platform and ending at height 1, are not proved. They would need 100 concrete ticks.
