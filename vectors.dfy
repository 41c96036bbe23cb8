/** Two-dimensional vectors over exact reals. `Sub`, `Scale`, `ScaleAndAdd`
    and `Dot` stand for the gl-matrix `vec2` operations the library calls
    (subtract, scale, scaleAndAdd, dot); `clone`, `create`, `fromValues` and
    `copy` become plain values. `Add` is used only to state results, and `Abs`
    stands for `Math.abs`. */
module Vectors {
  datatype Vec2 = Vec2(x: real, y: real)

  const Zero: Vec2 := Vec2(0.0, 0.0)

  function Add(a: Vec2, b: Vec2): Vec2 {
    Vec2(a.x + b.x, a.y + b.y)
  }

  function Sub(a: Vec2, b: Vec2): Vec2 {
    Vec2(a.x - b.x, a.y - b.y)
  }

  function Scale(a: Vec2, s: real): Vec2 {
    Vec2(a.x * s, a.y * s)
  }

  /** `vec2.scaleAndAdd(out, a, b, s)`: a + b * s. */
  function ScaleAndAdd(a: Vec2, b: Vec2, s: real): Vec2 {
    Vec2(a.x + b.x * s, a.y + b.y * s)
  }

  function Dot(a: Vec2, b: Vec2): real {
    a.x * b.x + a.y * b.y
  }

  function Abs(r: real): real {
    if r < 0.0 then -r else r
  }
}
