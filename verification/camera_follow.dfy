/** The camera follower (cCameraFollow.go; component.go carries an
    identical copy): each tick the level's camera offset moves a fixed
    fraction of the way toward the body, then is clamped to the level. */
module CameraFollow {
  import opened Prelude
  import opened Bodies
  import opened Levels

  const DefaultSoftness: real := 0.1

  /** One step of the lerp toward `target`. */
  function Lerp(cam: real, target: real, softness: real): real
  {
    cam + (target - cam) * softness
  }

  /** With a softness between 0 and 1 the lerp lands between the old value
      and the target. */
  lemma LerpBetween(cam: real, target: real, softness: real)
    ensures 0.0 <= softness <= 1.0 && cam <= target ==> cam <= Lerp(cam, target, softness) <= target
    ensures 0.0 <= softness <= 1.0 && target <= cam ==> target <= Lerp(cam, target, softness) <= cam
  {
    if 0.0 <= softness <= 1.0 {
      var d := target - cam;
      var rest := 1.0 - softness;
      assert d - d * softness == d * rest;
      if d >= 0.0 {
        NonNegProduct(d, softness);
        NonNegProduct(d, rest);
      } else {
        NonNegProduct(-d, softness);
        NonNegProduct(-d, rest);
      }
    }
  }

  lemma NonNegProduct(a: real, b: real)
    requires 0.0 <= a && 0.0 <= b
    ensures 0.0 <= a * b
  {
  }

  /** The two clamps in their order: first at 0, then at the far edge of
      the level, so on a level smaller than the screen the second one wins
      and the offset goes negative. */
  function Clamp(v: real, level: int, screen: int): (r: real)
    ensures level >= screen ==> 0.0 <= r <= (level - screen) as real
    ensures level < screen ==> r == (level - screen) as real
    ensures 0.0 <= v <= (level - screen) as real ==> r == v
  {
    var a := if v < 0.0 then 0.0 else v;
    if a + screen as real > level as real then (level - screen) as real else a
  }

  /** The new offset on one axis: the body's position less the screen
      offset is the target of the lerp, and the result is clamped. */
  function FollowAxis(cam: real, bodyPos: real, offset: real, softness: real, level: int, screen: int): real
  {
    Clamp(Lerp(cam, bodyPos - offset, softness), level, screen)
  }

  /** With the default softness, on a level at least as large as the
      screen, an offset that starts inside the level and whose target is
      inside the level stays between its old value and the target. */
  lemma FollowApproaches(cam: real, bodyPos: real, offset: real, level: int, screen: int)
    requires level >= screen
    requires 0.0 <= cam <= (level - screen) as real
    requires 0.0 <= bodyPos - offset <= (level - screen) as real
    ensures var r := FollowAxis(cam, bodyPos, offset, DefaultSoftness, level, screen);
      (cam <= bodyPos - offset ==> cam <= r <= bodyPos - offset) &&
      (bodyPos - offset <= cam ==> bodyPos - offset <= r <= cam)
  {
    LerpBetween(cam, bodyPos - offset, DefaultSoftness);
  }

  class CameraFollowComponent {
    var offsetX: real
    var offsetY: real
    var softness: real

    constructor ()
      ensures offsetX == 0.0 && offsetY == 0.0 && softness == DefaultSoftness
    {
      offsetX, offsetY := 0.0, 0.0;
      softness := DefaultSoftness;
    }

    /** `OnAdd`: the body is kept at the centre of a `gameW` by `gameH`
        screen (integer halves). */
    method OnAdd(gameW: int, gameH: int)
      modifies this
      ensures offsetX == GoHalf(gameW) as real && offsetY == GoHalf(gameH) as real
      ensures softness == old(softness)
    {
      offsetX := GoHalf(gameW) as real;
      offsetY := GoHalf(gameH) as real;
    }

    /** One tick, for a `gameW` by `gameH` screen.  The lerp aims at the
        body's top-left corner.  Without a body nothing changes. */
    method Update(body: BodyComponent?, level: Level, gameW: int, gameH: int)
      modifies level
      ensures body == null ==> unchanged(level)
      ensures body != null ==>
        level.cameraOffsetX == FollowAxis(old(level.cameraOffsetX), body.x, offsetX, softness, level.Width(), gameW) &&
        level.cameraOffsetY == FollowAxis(old(level.cameraOffsetY), body.y, offsetY, softness, level.Height(), gameH)
      ensures level.gameObjects == old(level.gameObjects) && level.toRemove == old(level.toRemove)
      ensures level.solids == old(level.solids) && level.trace == old(level.trace)
    {
      if body != null {
        var tx := body.x - offsetX - level.cameraOffsetX;
        assert level.cameraOffsetX + tx * softness == Lerp(level.cameraOffsetX, body.x - offsetX, softness);
        level.cameraOffsetX := level.cameraOffsetX + tx * softness;

        var ty := body.y - offsetY - level.cameraOffsetY;
        assert level.cameraOffsetY + ty * softness == Lerp(level.cameraOffsetY, body.y - offsetY, softness);
        level.cameraOffsetY := level.cameraOffsetY + ty * softness;

        if level.cameraOffsetX < 0.0 {
          level.cameraOffsetX := 0.0;
        }
        if level.cameraOffsetY < 0.0 {
          level.cameraOffsetY := 0.0;
        }

        if level.cameraOffsetX + gameW as real > level.Width() as real {
          level.cameraOffsetX := (level.Width() - gameW) as real;
        }
        if level.cameraOffsetY + gameH as real > level.Height() as real {
          level.cameraOffsetY := (level.Height() - gameH) as real;
        }
      }
    }
  }
}
