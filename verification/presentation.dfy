/** How the controllers drive the sprite: the speed picks an animation, a
    stopped body freezes on the animation's first frame, and the facing
    decides the horizontal flip (cPlayerControl.go and cAIControl.go share
    this block word for word). */
module Presentation {
  import opened Prelude
  import opened Vectors

  /** Speeds no larger than this on an axis do not count as moving along
      it for the choice of animation. */
  const Gate: real := 0.3

  /** The animation for a speed: "u"/"d" when moving only vertically, "r"
      when moving only horizontally, "ur"/"dr" diagonally, and none when
      both components are within the gate.  Leftward motion uses the same
      animations (the sprite is flipped instead). */
  function AnimFor(speed: Vec): (a: Option<string>)
    ensures a.None? <==> Abs(speed.x) <= Gate && Abs(speed.y) <= Gate
    ensures a == Some("ur") <==> speed.y < -Gate && Abs(speed.x) > Gate
    ensures a == Some("u") <==> speed.y < -Gate && Abs(speed.x) <= Gate
    ensures a == Some("r") <==> Abs(speed.y) <= Gate && Abs(speed.x) > Gate
    ensures a == Some("dr") <==> speed.y > Gate && Abs(speed.x) > Gate
    ensures a == Some("d") <==> speed.y > Gate && Abs(speed.x) <= Gate
  {
    var xc := if Abs(speed.x) > Gate then 1 else 0;
    var yc := if speed.y < -Gate then -1 else if speed.y > Gate then 1 else 0;
    if yc < 0 && xc != 0 then Some("ur")
    else if yc < 0 && xc == 0 then Some("u")
    else if yc == 0 && xc != 0 then Some("r")
    else if yc > 0 && xc != 0 then Some("dr")
    else if yc > 0 && xc == 0 then Some("d")
    else None
  }

  /** The flip after a tick: facing left flips, facing right unflips, and
      a facing with no horizontal part keeps the previous flip. */
  function FlipFor(facingX: real, flipped: bool): (f: bool)
    ensures facingX != 0.0 ==> (f <==> facingX < 0.0)
    ensures facingX == 0.0 ==> f == flipped
  {
    if facingX < 0.0 then true
    else if facingX > 0.0 then false
    else flipped
  }

  /** The animation choice ignores the sign of the horizontal speed. */
  lemma AnimMirror(speed: Vec)
    ensures AnimFor(Vec(-speed.x, speed.y)) == AnimFor(speed)
  {
  }

  /** The sprite state a controller touches: the animation being played,
      the playback speed and the frame. */
  class Sprite {
    var current: Option<string>
    var playSpeed: real
    var currentFrame: int
    /** The first frame of each animation. */
    const startOf: string -> int

    /** `Play(name)` makes `name` the current animation.  What else the
        animation library does when it switches is not modelled. */
    method Play(name: string)
      modifies this
      ensures current == Some(name) && playSpeed == old(playSpeed)
    {
      current := Some(name);
    }
  }

  class DrawComponent {
    var flipHorizontal: bool

    constructor ()
      ensures !flipHorizontal
    {
      flipHorizontal := false;
    }
  }

  /** The presentation block of a controller's update, for the body's final
      speed and the controller's facing.  A stopped body has magnitude 0
      exactly when it is the zero vector.  The flip is only touched when
      the object has an animation. */
  method Present(speed: Vec, facing: Vec, sprite: Sprite?, draw: DrawComponent?)
    modifies sprite, draw
    ensures sprite == null ==> draw == null || draw.flipHorizontal == old(draw.flipHorizontal)
    ensures sprite != null ==>
      sprite.current == (if AnimFor(speed).Some? then AnimFor(speed) else old(sprite.current)) &&
      sprite.playSpeed == (if speed == Zero then 0.0 else 1.0) &&
      (speed == Zero && sprite.current.Some? ==>
        sprite.currentFrame == sprite.startOf(sprite.current.value)) &&
      (AnimFor(speed).None? && speed != Zero ==> sprite.currentFrame == old(sprite.currentFrame))
    ensures sprite != null && draw != null ==>
      draw.flipHorizontal == FlipFor(facing.x, old(draw.flipHorizontal))
  {
    if sprite != null {
      var anim := AnimFor(speed);
      if anim.Some? {
        sprite.Play(anim.value);
      }

      if speed == Zero {
        sprite.playSpeed := 0.0;
        if sprite.current.Some? {
          sprite.currentFrame := sprite.startOf(sprite.current.value);
        }
      } else {
        sprite.playSpeed := 1.0;
      }

      if draw != null {
        if facing.x < 0.0 {
          draw.flipHorizontal := true;
        } else if facing.x > 0.0 {
          draw.flipHorizontal := false;
        }
      }
    }
  }
}
