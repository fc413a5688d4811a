/** The player controller (cPlayerControl.go; component.go carries an
    identical copy): arrow keys give a direction, X fires the weapon along
    the current facing, the speed is slowed by friction on its magnitude,
    accelerated toward the direction, capped, and the facing follows the
    speed while a direction is held. */
module PlayerControl {
  import opened Prelude
  import opened Vectors
  import opened Bodies
  import opened Steering
  import opened Presentation

  /** The keys read in one tick: the four arrows held, and whether X was
      pressed this very tick. */
  datatype Input = Input(right: bool, left: bool, up: bool, down: bool, fireJustPressed: bool)

  function Key(held: bool): real
  {
    if held then 1.0 else 0.0
  }

  /** The move direction: right minus left across, down minus up along the
      screen's y axis, which grows downward. */
  function MoveDir(i: Input): Vec
  {
    Vec(Key(i.right) - Key(i.left), Key(i.down) - Key(i.up))
  }

  /** The speed after one tick: friction on the magnitude, then, while a
      direction is held, acceleration along it and the cap. */
  function PlayerSpeed(lib: VectorLib, v: Vec, dir: Vec): Vec
  {
    var f := PlayerFriction(lib, v);
    if dir == Zero then f else Cap(lib, Accelerate(lib, f, dir))
  }

  /** The facing after one tick: the direction of the new speed while a
      direction is held, the old facing otherwise. */
  function PlayerFacing(lib: VectorLib, facing: Vec, v: Vec, dir: Vec): Vec
  {
    if dir == Zero then facing else lib.unit(PlayerSpeed(lib, v, dir))
  }

  /** Each axis of the move direction is -1, 0 or 1, and the direction is
      zero exactly when each pair of opposite keys is both held or both
      released. */
  lemma MoveDirRange(i: Input)
    ensures MoveDir(i).x in {-1.0, 0.0, 1.0} && MoveDir(i).y in {-1.0, 0.0, 1.0}
    ensures MoveDir(i) == Zero <==> (i.right == i.left && i.up == i.down)
    ensures MoveDir(i).x == 1.0 <==> i.right && !i.left
    ensures MoveDir(i).y == -1.0 <==> i.up && !i.down
  {
  }

  /** Without a direction the facing is kept and only friction acts; a
      body slower than the friction stops outright. */
  lemma IdleTick(lib: VectorLib, facing: Vec, v: Vec, i: Input)
    requires MoveDir(i) == Zero
    ensures PlayerFacing(lib, facing, v, MoveDir(i)) == facing
    ensures PlayerSpeed(lib, v, MoveDir(i)) == PlayerFriction(lib, v)
    ensures MagSq(v) < Friction * Friction ==> PlayerSpeed(lib, v, MoveDir(i)) == Zero
  {
  }

  /** While a direction is held the new speed is within the cap, given
      unit vectors. */
  lemma PlayerSpeedBound(lib: VectorLib, v: Vec, dir: Vec)
    requires UnitVectors(lib) && dir != Zero
    ensures MagSq(PlayerSpeed(lib, v, dir)) <= MaxSpeed * MaxSpeed
  {
    CapBound(lib, Accelerate(lib, PlayerFriction(lib, v), dir));
  }

  /** The weapon as the controller sees it: the direction it fires along,
      and the directions of every shot fired so far (`Fire` spawns a bullet
      at the body's position, flying along `FireDirection`). */
  /** The factor a bullet's speed is its fire direction scaled by. */
  const BulletSpeed: real := 4.0

  class WeaponComponent {
    var fireDirection: Vec
    ghost var shots: seq<Vec>

    constructor ()
      ensures fireDirection == Zero && shots == []
    {
      fireDirection := Zero;
      shots := [];
    }

    /** The bullet's speed is `FireDirection.Scale(4)`, which scales the
        weapon's own vector in place: the shot flies along the direction
        held before the call, and the weapon is left holding four times it. */
    method Fire()
      modifies this
      ensures shots == old(shots) + [old(fireDirection)]
      ensures fireDirection == Scale(old(fireDirection), BulletSpeed)
    {
      shots := shots + [fireDirection];
      fireDirection := Scale(fireDirection, BulletSpeed);
    }
  }

  /** The direction built from the keys as the source does, one increment
      or decrement per held key. */
  method ReadDirection(i: Input) returns (d: Vec)
    ensures d == MoveDir(i)
  {
    d := Zero;
    if i.right {
      d := d.(x := d.x + 1.0);
    }
    if i.left {
      d := d.(x := d.x - 1.0);
    }
    if i.up {
      d := d.(y := d.y - 1.0);
    }
    if i.down {
      d := d.(y := d.y + 1.0);
    }
  }

  class PlayerControlComponent {
    var facing: Vec

    constructor ()
      ensures facing == Vec(0.0, 1.0)
    {
      facing := Vec(0.0, 1.0);
    }

    /** Friction, then acceleration and the cap while `dir` is held. */
    method Move(body: BodyComponent, dir: Vec, lib: VectorLib)
      modifies this, body
      ensures body.speed == PlayerSpeed(lib, old(body.speed), dir)
      ensures facing == PlayerFacing(lib, old(facing), old(body.speed), dir)
      ensures body.x == old(body.x) && body.y == old(body.y)
      ensures body.hasOnBump == old(body.hasOnBump) && body.bumps == old(body.bumps)
    {
      if MagSq(body.speed) < Friction * Friction {
        body.speed := Zero;
      } else {
        var m := lib.magnitude(body.speed);
        body.speed := ScaleTo(lib, body.speed, m - Friction);
      }

      if dir != Zero {
        body.speed := Add(body.speed, Scale(lib.unit(dir), Accel));
        if MagSq(body.speed) > MaxSpeed * MaxSpeed {
          body.speed := ScaleTo(lib, body.speed, MaxSpeed);
        }
        facing := lib.unit(body.speed);
      }
    }

    /** One tick of the controller.  Without a body nothing happens.  The
        weapon fires along the facing held before this tick's move. */
    method Update(body: BodyComponent?, input: Input, weapon: WeaponComponent?, lib: VectorLib,
                  sprite: Sprite?, draw: DrawComponent?)
      modifies this, body, weapon, sprite, draw
      ensures body == null ==> unchanged(this)
      ensures body == null && weapon != null ==> unchanged(weapon)
      ensures body == null && sprite != null ==> unchanged(sprite)
      ensures body == null && draw != null ==> unchanged(draw)
      ensures body != null ==>
        body.speed == PlayerSpeed(lib, old(body.speed), MoveDir(input)) &&
        facing == PlayerFacing(lib, old(facing), old(body.speed), MoveDir(input)) &&
        body.x == old(body.x) && body.y == old(body.y)
      ensures body != null && weapon != null && input.fireJustPressed ==>
        weapon.fireDirection == Scale(old(facing), BulletSpeed) && weapon.shots == old(weapon.shots) + [old(facing)]
      ensures body != null && weapon != null && !input.fireJustPressed ==> unchanged(weapon)
      ensures body != null && sprite != null ==>
        sprite.current == (if AnimFor(body.speed).Some? then AnimFor(body.speed) else old(sprite.current)) &&
        sprite.playSpeed == (if body.speed == Zero then 0.0 else 1.0)
      ensures body != null && sprite != null && draw != null ==>
        draw.flipHorizontal == FlipFor(facing.x, old(draw.flipHorizontal))
      ensures body != null && sprite != null && body.speed == Zero && sprite.current.Some? ==>
        sprite.currentFrame == sprite.startOf(sprite.current.value)
      ensures body != null && sprite != null && AnimFor(body.speed).None? && body.speed != Zero ==>
        sprite.currentFrame == old(sprite.currentFrame)
      ensures body != null && sprite == null && draw != null ==>
        draw.flipHorizontal == old(draw.flipHorizontal)
      ensures body != null ==> body.hasOnBump == old(body.hasOnBump) && body.bumps == old(body.bumps)
    {
      if body != null {
        var dir := ReadDirection(input);
        if input.fireJustPressed && weapon != null {
          weapon.fireDirection := facing;
          weapon.Fire();
        }
        Move(body, dir, lib);
        Present(body.speed, facing, sprite, draw);
      }
    }
  }
}
