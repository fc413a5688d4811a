/** The speed rules the controllers share: friction, acceleration toward a
    direction and the speed cap (cAIControl.go, cPlayerControl.go and their
    older copies in component.go). */
module Steering {
  import opened Prelude
  import opened Vectors
  import opened Bodies

  const Friction: real := 0.25
  const MaxSpeed: real := 2.0
  /** Both controllers accelerate by 0.5 per tick (the AI writes it as
      `0.25 + friction`). */
  const Accel: real := 0.5

  /** The AI's per-axis friction: the component loses `Friction` of its
      size without changing sign, and stops outright when it is no larger
      than `Friction`. */
  function FrictionAxis(s: real): (r: real)
    ensures Abs(r) == if Abs(s) <= Friction then 0.0 else Abs(s) - Friction
    ensures r == 0.0 || (r > 0.0 <==> s > 0.0)
  {
    if s > Friction then s - Friction
    else if s < -Friction then s + Friction
    else 0.0
  }

  function FrictionVec(v: Vec): Vec
  {
    Vec(FrictionAxis(v.x), FrictionAxis(v.y))
  }

  /** The AI's friction on a body, written as in the source: one if-chain
      per axis. */
  method ApplyAxisFriction(body: BodyComponent)
    modifies body
    ensures body.speed == FrictionVec(old(body.speed))
    ensures body.x == old(body.x) && body.y == old(body.y)
    ensures body.hasOnBump == old(body.hasOnBump) && body.bumps == old(body.bumps)
  {
    if body.speed.x > Friction {
      body.speed := body.speed.(x := body.speed.x - Friction);
    } else if body.speed.x < -Friction {
      body.speed := body.speed.(x := body.speed.x + Friction);
    } else {
      body.speed := body.speed.(x := 0.0);
    }

    if body.speed.y > Friction {
      body.speed := body.speed.(y := body.speed.y - Friction);
    } else if body.speed.y < -Friction {
      body.speed := body.speed.(y := body.speed.y + Friction);
    } else {
      body.speed := body.speed.(y := 0.0);
    }
  }

  /** The player's friction: below `Friction` in magnitude the speed stops
      exactly; otherwise it is rescaled (in place) to its magnitude minus
      `Friction`. */
  function PlayerFriction(lib: VectorLib, v: Vec): Vec
  {
    if MagSq(v) < Friction * Friction then Zero
    else ScaleTo(lib, v, lib.magnitude(v) - Friction)
  }

  /** `Speed.Add(dir.Unit().Scale(Accel))`. */
  function Accelerate(lib: VectorLib, v: Vec, dir: Vec): Vec
  {
    Add(v, Scale(lib.unit(dir), Accel))
  }

  /** The speed cap: a speed longer than `MaxSpeed` is rescaled to it. */
  function Cap(lib: VectorLib, v: Vec): Vec
  {
    if MagSq(v) > MaxSpeed * MaxSpeed then ScaleTo(lib, v, MaxSpeed) else v
  }

  /** What `Unit()` promises of the vector library: a unit vector for every
      non-zero input. */
  ghost predicate UnitVectors(lib: VectorLib)
  {
    forall v :: v != Zero ==> MagSq(lib.unit(v)) == 1.0
  }

  /** Friction never makes a speed faster on either axis, and a speed whose
      both components lie within `Friction` stops. */
  lemma FrictionSlows(v: Vec)
    ensures Abs(FrictionVec(v).x) <= Abs(v.x) && Abs(FrictionVec(v).y) <= Abs(v.y)
    ensures Abs(v.x) <= Friction && Abs(v.y) <= Friction <==> FrictionVec(v) == Zero
  {
  }

  /** After the cap the speed is at most `MaxSpeed`, given unit vectors. */
  lemma CapBound(lib: VectorLib, v: Vec)
    requires UnitVectors(lib)
    ensures MagSq(Cap(lib, v)) <= MaxSpeed * MaxSpeed
    ensures MagSq(v) <= MaxSpeed * MaxSpeed ==> Cap(lib, v) == v
  {
    if MagSq(v) > MaxSpeed * MaxSpeed {
      assert v != Zero;
      ScaleMagSq(lib.unit(v), MaxSpeed);
    }
  }

  /** A speed under the friction threshold ends exactly at rest. */
  lemma PlayerFrictionStops(lib: VectorLib, v: Vec)
    requires MagSq(v) < Friction * Friction
    ensures PlayerFriction(lib, v) == Zero
  {
  }
}
