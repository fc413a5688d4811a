/** The body component: an axis-aligned box with a speed, moved against the
    "solid" objects of the collision space one axis at a time (cBody.go;
    component.go carries an identical copy). */
module Bodies {
  import opened Prelude
  import opened Vectors

  /** What the collision library reports for a blocked move: the integer
      offset that brings the box into contact, and whether (and by how much
      on each axis) the box could slide past the obstacle instead. */
  datatype Collision = Collision(
    contactX: int, contactY: int,
    canSlide: bool, slideX: real, slideY: real)

  /** The collision library's `Check(dx, dy, "solid")` for this body's box
      standing at `(x, y)`: `None` when the move is free.  The box size and
      the static solids are fixed, so the position and the move are all it
      depends on. */
  type Checker = (real, real, real, real) -> Option<Collision>

  /** Slides shorter than this are taken instead of stopping. */
  const SlideLimit: real := 4.0

  /** Position, speed and the number of blocked axes so far. */
  datatype Motion = Motion(x: real, y: real, speed: Vec, hits: nat)

  /** The horizontal half of an update. */
  function StepX(check: Checker, m: Motion): Motion
  {
    match check(m.x, m.y, m.speed.x, 0.0)
    case None => m.(x := m.x + m.speed.x)
    case Some(c) =>
      var x := m.x + c.contactX as real;
      if c.canSlide && Abs(c.slideY) < SlideLimit then
        Motion(x, m.y + c.slideY, m.speed, m.hits + 1)
      else
        Motion(x, m.y, m.speed.(x := 0.0), m.hits + 1)
  }

  /** The vertical half of an update, from wherever the horizontal half left
      the box. */
  function StepY(check: Checker, m: Motion): Motion
  {
    match check(m.x, m.y, 0.0, m.speed.y)
    case None => m.(y := m.y + m.speed.y)
    case Some(c) =>
      var y := m.y + c.contactY as real;
      if c.canSlide && Abs(c.slideX) < SlideLimit then
        Motion(m.x + c.slideX, y, m.speed, m.hits + 1)
      else
        Motion(m.x, y, m.speed.(y := 0.0), m.hits + 1)
  }

  /** One body update: X first, then Y. */
  function Resolve(check: Checker, m: Motion): Motion
  {
    StepY(check, StepX(check, m))
  }

  /** The box's position after the horizontal half, where the vertical
      check is made. */
  function AfterX(check: Checker, m: Motion): (real, real)
  {
    var h := StepX(check, m);
    (h.x, h.y)
  }

  class BodyComponent {
    /** Top-left corner of the collision box. */
    var x: real
    var y: real
    const w: real
    const h: real
    var speed: Vec
    /** Whether an `OnBump` callback is installed. */
    var hasOnBump: bool
    /** How many times `OnBump` has been called. */
    ghost var bumps: nat

    constructor (x0: real, y0: real, w0: real, h0: real)
      ensures x == x0 && y == y0 && w == w0 && h == h0
      ensures speed == Zero && !hasOnBump && bumps == 0
    {
      x, y, w, h := x0, y0, w0, h0;
      speed := Zero;
      hasOnBump := false;
      bumps := 0;
    }

    /** The centre of the box; it lies inside the box whenever the box has a
        non-negative size. */
    function Center(): (c: Vec)
      reads this
      ensures w >= 0.0 ==> x <= c.x <= x + w
      ensures h >= 0.0 ==> y <= c.y <= y + h
      ensures c.x - x == x + w - c.x && c.y - y == y + h - c.y
    {
      Vec(x + w / 2.0, y + h / 2.0)
    }

    ghost function State(): Motion
      reads this
    {
      Motion(x, y, speed, 0)
    }

    /** Moves the box by its speed against the solids, X then Y; the bump
        callback runs once per blocked axis when it is installed. */
    method Update(check: Checker)
      modifies this
      ensures var r := Resolve(check, old(State()));
        x == r.x && y == r.y && speed == r.speed &&
        bumps == old(bumps) + (if hasOnBump then r.hits else 0)
      ensures hasOnBump == old(hasOnBump)
    {
      ghost var mid := StepX(check, State());
      ghost var bumps0 := bumps;
      match check(x, y, speed.x, 0.0) {
        case Some(c) =>
          if hasOnBump { bumps := bumps + 1; }
          x := x + c.contactX as real;
          if c.canSlide && Abs(c.slideY) < SlideLimit {
            y := y + c.slideY;
          } else {
            speed := speed.(x := 0.0);
          }
        case None =>
          x := x + speed.x;
      }
      assert x == mid.x && y == mid.y && speed == mid.speed;
      assert bumps == bumps0 + (if hasOnBump then mid.hits else 0);

      match check(x, y, 0.0, speed.y) {
        case Some(c) =>
          if hasOnBump { bumps := bumps + 1; }
          y := y + c.contactY as real;
          if c.canSlide && Abs(c.slideX) < SlideLimit {
            x := x + c.slideX;
          } else {
            speed := speed.(y := 0.0);
          }
        case None =>
          y := y + speed.y;
      }
    }
  }

  /** With both checks free the body moves by exactly its speed and keeps
      it. */
  lemma FreeMotion(check: Checker, m: Motion)
    requires check(m.x, m.y, m.speed.x, 0.0).None?
    requires check(m.x + m.speed.x, m.y, 0.0, m.speed.y).None?
    ensures Resolve(check, m) == Motion(m.x + m.speed.x, m.y + m.speed.y, m.speed, m.hits)
  {
  }

  /** A blocked horizontal move puts the box at the contact offset; it then
      either slides vertically (and keeps its horizontal speed) or loses its
      horizontal speed, never both. */
  lemma BlockedX(check: Checker, m: Motion, c: Collision)
    requires check(m.x, m.y, m.speed.x, 0.0) == Some(c)
    ensures StepX(check, m).x == m.x + c.contactX as real
    ensures StepX(check, m).hits == m.hits + 1
    ensures StepX(check, m).speed.y == m.speed.y
    ensures c.canSlide && Abs(c.slideY) < SlideLimit ==>
      StepX(check, m).y == m.y + c.slideY && StepX(check, m).speed.x == m.speed.x
    ensures !(c.canSlide && Abs(c.slideY) < SlideLimit) ==>
      StepX(check, m).y == m.y && StepX(check, m).speed.x == 0.0
  {
  }

  /** A blocked vertical move puts the box at the contact offset; it then
      either slides horizontally or loses its vertical speed. */
  lemma BlockedY(check: Checker, m: Motion, c: Collision)
    requires check(m.x, m.y, 0.0, m.speed.y) == Some(c)
    ensures StepY(check, m).y == m.y + c.contactY as real
    ensures StepY(check, m).hits == m.hits + 1
    ensures StepY(check, m).speed.x == m.speed.x
    ensures c.canSlide && Abs(c.slideX) < SlideLimit ==>
      StepY(check, m).x == m.x + c.slideX && StepY(check, m).speed.y == m.speed.y
    ensures !(c.canSlide && Abs(c.slideX) < SlideLimit) ==>
      StepY(check, m).x == m.x && StepY(check, m).speed.y == 0.0
  {
  }

  /** An update never changes a speed component except by zeroing it. */
  lemma SpeedOnlyZeroed(check: Checker, m: Motion)
    ensures var s := Resolve(check, m).speed;
      (s.x == m.speed.x || s.x == 0.0) && (s.y == m.speed.y || s.y == 0.0)
  {
  }

  /** The bump count grows by the number of blocked axes: at most two, and
      the vertical check is the one made from the position the horizontal
      half produced. */
  lemma HitsCount(check: Checker, m: Motion)
    ensures var p := AfterX(check, m);
      Resolve(check, m).hits == m.hits
        + (if check(m.x, m.y, m.speed.x, 0.0).Some? then 1 else 0)
        + (if check(p.0, p.1, 0.0, StepX(check, m).speed.y).Some? then 1 else 0)
    ensures Resolve(check, m).hits <= m.hits + 2
  {
  }

  /** A body that is not moving stays still when nothing pushes it: a
      zero-speed update against free checks is the identity. */
  lemma RestIsStable(check: Checker, m: Motion)
    requires m.speed == Zero
    requires check(m.x, m.y, 0.0, 0.0).None?
    ensures Resolve(check, m) == m
  {
  }
}
