/** Two-dimensional float vectors (modelled with exact reals) and the parts of
    the vector library whose results need a square root. */
module Vectors {

  datatype Vec = Vec(x: real, y: real)

  const Zero := Vec(0.0, 0.0)

  function Add(a: Vec, b: Vec): Vec { Vec(a.x + b.x, a.y + b.y) }

  function Sub(a: Vec, b: Vec): Vec { Vec(a.x - b.x, a.y - b.y) }

  function Scale(a: Vec, k: real): Vec { Vec(a.x * k, a.y * k) }

  /** The squared magnitude: the source's `Magnitude() < m` tests are
      modelled as `MagSq(v) < m * m`, and `Magnitude() == 0` as `v == Zero`. */
  function MagSq(a: Vec): real
  {
    a.x * a.x + a.y * a.y
  }

  /** The square-root based operations of the vector library, given as
      values: `unit(v)` is what `v.Unit()` yields, `magnitude(v)` what
      `v.Magnitude()` yields.  Nothing is assumed about them beyond what a
      lemma states in its own requires. */
  datatype VectorLib = VectorLib(unit: Vec -> Vec, magnitude: Vec -> real)

  /** `v.Unit().Scale(m)` on a stored vector: the method forms work in place,
      so the stored vector becomes the unit vector scaled to `m`. */
  function ScaleTo(lib: VectorLib, v: Vec, m: real): Vec
  {
    Scale(lib.unit(v), m)
  }

  lemma ScaleMagSq(a: Vec, k: real)
    ensures MagSq(Scale(a, k)) == k * k * MagSq(a)
  {
    calc {
      MagSq(Scale(a, k));
      (a.x * k) * (a.x * k) + (a.y * k) * (a.y * k);
      k * k * (a.x * a.x + a.y * a.y);
    }
  }
}
