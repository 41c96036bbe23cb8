/** The platform/player overlap test of `Platform.prototype.collide`: an
    axis-aligned separating-axis test, face by face with early exit, that keeps
    the face of least penetration (the minimum translation). */
module Collision {
  import opened Options
  import opened Vectors

  /** An axis-aligned box: `position` is its bottom-left corner. */
  datatype Box = Box(position: Vec2, size: Vec2)

  /** The four axis normals, pointing from the platform towards the player. */
  datatype Normal = Right | Left | Up | Down

  /** The contact found by a successful test: the penetration depth and the
      face normal along which the player must be pushed out. */
  datatype Contact = Contact(depth: real, normal: Normal)

  /** One candidate face: its overlap and its normal. */
  datatype Face = Face(overlap: real, normal: Normal)

  function NormalVec(n: Normal): Vec2 {
    match n
    case Right => Vec2(1.0, 0.0)
    case Left => Vec2(-1.0, 0.0)
    case Up => Vec2(0.0, 1.0)
    case Down => Vec2(0.0, -1.0)
  }

  /** Position of a face in the order the source tests them. */
  function Rank(n: Normal): nat {
    match n
    case Right => 0
    case Left => 1
    case Up => 2
    case Down => 3
  }

  /** How far the player would have to move along `n` to leave the platform. */
  function Overlap(platform: Box, player: Box, n: Normal): real {
    match n
    case Right => platform.position.x + platform.size.x - player.position.x
    case Left => player.position.x + player.size.x - platform.position.x
    case Up => platform.position.y + platform.size.y - player.position.y
    case Down => player.position.y + player.size.y - platform.position.y
  }

  /** The faces in the order RIGHT, LEFT, UP, DOWN. */
  function Faces(platform: Box, player: Box): seq<Face> {
    [Face(Overlap(platform, player, Right), Right),
     Face(Overlap(platform, player, Left), Left),
     Face(Overlap(platform, player, Up), Up),
     Face(Overlap(platform, player, Down), Down)]
  }

  /** `testOverlap` once the face is known not to be separating: a face
      replaces the best so far only when its overlap is strictly smaller. */
  function Keep(best: Option<Contact>, f: Face): Option<Contact> {
    if best.None? || f.overlap < best.value.depth then Some(Contact(f.overlap, f.normal)) else best
  }

  /** The face-by-face scan: stops with no contact at the first negative
      overlap, otherwise keeps the least overlap seen so far. */
  function Scan(fs: seq<Face>, best: Option<Contact>): Option<Contact> {
    if fs == [] then best
    else if fs[0].overlap < 0.0 then None
    else Scan(fs[1..], Keep(best, fs[0]))
  }

  /** `Platform.prototype.collide(player, collisionInfo)`: `None` for `false`,
      `Some(contact)` for `true` with the contents of `collisionInfo`. */
  function Collide(platform: Box, player: Box): Option<Contact> {
    Scan(Faces(platform, player), None)
  }

  /** Some face of the two boxes has a negative overlap: they are apart. */
  predicate Disjoint(platform: Box, player: Box) {
    exists n: Normal :: Overlap(platform, player, n) < 0.0
  }

  /** `c` is the least overlap of the four faces, reached first at `c.normal`
      in the testing order. */
  ghost predicate FirstMinimum(platform: Box, player: Box, c: Contact) {
    && c.depth == Overlap(platform, player, c.normal)
    && (forall n: Normal :: c.depth <= Overlap(platform, player, n))
    && (forall n: Normal :: Rank(n) < Rank(c.normal) ==> c.depth < Overlap(platform, player, n))
  }

  /** The contract of `collide`: no contact exactly when some overlap is
      negative (an overlap of 0 is a contact), and otherwise the depth is the
      least overlap and the normal the first face, in the order RIGHT, LEFT,
      UP, DOWN, that reaches it. */
  lemma {:induction false} CollideSpec(platform: Box, player: Box)
    ensures Collide(platform, player).None? <==> Disjoint(platform, player)
    ensures Collide(platform, player).Some? ==> FirstMinimum(platform, player, Collide(platform, player).value)
  {
    var fs := Faces(platform, player);
    var r, l, u, d := fs[0].overlap, fs[1].overlap, fs[2].overlap, fs[3].overlap;
    var b1 := Keep(None, fs[0]);
    var b2 := Keep(b1, fs[1]);
    var b3 := Keep(b2, fs[2]);
    var b4 := Keep(b3, fs[3]);
    // The scan, one face at a time.
    assert fs[1..][0] == fs[1] && fs[1..][1..][0] == fs[2] && fs[1..][1..][1..][0] == fs[3];
    assert fs[1..][1..][1..][1..] == [];
    assert Scan(fs[1..][1..][1..], b3) == if d < 0.0 then None else b4;
    assert Scan(fs[1..][1..], b2) == if u < 0.0 then None else Scan(fs[1..][1..][1..], b3);
    assert Scan(fs[1..], b1) == if l < 0.0 then None else Scan(fs[1..][1..], b2);
    assert Collide(platform, player) == if r < 0.0 then None else Scan(fs[1..], b1);
    if r < 0.0 || l < 0.0 || u < 0.0 || d < 0.0 {
      assert Overlap(platform, player, fs[if r < 0.0 then 0 else if l < 0.0 then 1 else if u < 0.0 then 2 else 3].normal) < 0.0;
    } else {
      assert forall n: Normal :: Overlap(platform, player, n) >= 0.0 by {
        forall n: Normal ensures Overlap(platform, player, n) >= 0.0 {
          assert fs[Rank(n)].normal == n;
        }
      }
      var c := b4.value;
      forall n: Normal ensures c.depth <= Overlap(platform, player, n)
        && (Rank(n) < Rank(c.normal) ==> c.depth < Overlap(platform, player, n)) {
        assert fs[Rank(n)].normal == n;
      }
      assert FirstMinimum(platform, player, c);
    }
  }

  /** Depth is never negative when there is a contact. */
  lemma ContactDepthNonNegative(platform: Box, player: Box)
    requires Collide(platform, player).Some?
    ensures Collide(platform, player).value.depth >= 0.0
  {
    CollideSpec(platform, player);
    var c := Collide(platform, player).value;
    assert Overlap(platform, player, c.normal) == c.depth;
  }
}
