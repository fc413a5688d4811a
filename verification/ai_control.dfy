/** The AI controller of cAIControl.go: it follows a path to the player,
    replans every 3000 ticks, advances along the path on arrival at a cell
    and cuts corners by jumping to the farthest path cell in clear line of
    sight. */
module AIControl {
  import opened Prelude
  import opened Vectors
  import opened Slices
  import opened Bodies
  import opened Paths
  import opened Steering
  import opened Presentation

  /** Ticks between forced replans. */
  const ReplanPeriod: int := 3000

  /** The arrival radius is 4: `Magnitude() <= 4` as squared lengths. */
  const ArrivalSq: real := 16.0

  /** One call of the path finder, as it was made. */
  datatype PathRequest = PathRequest(fromX: real, fromY: real, toX: real, toY: real, diagonals: bool)

  /** What the AI reads and does not own: the centre of the first player's
      body (if there is a player), the path finder, the collision space and
      the vector library. */
  datatype Env = Env(player: Option<Vec>, finder: PathFinder, space: Space, lib: VectorLib)

  /** The controller's fields together with the body's speed. */
  datatype AIState = AIState(
    facing: Vec, targetPos: Vec, path: Option<Path>, timer: int, speed: Vec,
    requests: seq<PathRequest>)

  /** The world position of the centre of a space cell (integer arithmetic,
      as in the source). */
  function CellCentre(space: Space, c: Cell): Vec
  {
    Vec((c.x * space.cellWidth + GoHalf(space.cellWidth)) as real,
        (c.y * space.cellHeight + GoHalf(space.cellHeight)) as real)
  }

  /** `RecalculatePath`: aim at the player's centre when there is a player,
      else at the cached target, and ask for a path without diagonals. */
  function Replan(s: AIState, center: Vec, env: Env): AIState
  {
    var target := if env.player.Some? then env.player.value else s.targetPos;
    s.(targetPos := target,
       path := NewPath(env.finder(center.x, center.y, target.x, target.y, false)),
       requests := s.requests + [PathRequest(center.x, center.y, target.x, target.y, false)])
  }

  /** No cell of the line holds a solid. */
  function LineFree(cs: seq<SpaceCell>): (b: bool)
    ensures b <==> forall k :: 0 <= k < |cs| ==> !ContainsSolid(cs[k])
  {
    if cs == [] then true
    else !ContainsSolid(cs[0]) && LineFree(cs[1..])
  }

  /** The cells on the line from the cell at `cur` to the cell at `i`. */
  function LineTo(cells: seq<Cell>, cur: nat, i: nat, space: Space): seq<SpaceCell>
    requires cur < |cells| && i < |cells|
  {
    space.cellsInLine(cells[cur].x, cells[cur].y, cells[i].x, cells[i].y)
  }

  /** The shortcut scan from index `i` down: stop at index 0 or on reaching
      the current cell, otherwise take the first index whose line from the
      current cell is free of solids. */
  function ScanFrom(cells: seq<Cell>, cur: nat, space: Space, i: int): (r: Option<int>)
    requires cur < |cells| && i < |cells|
    ensures r.Some? ==> 0 < r.value <= i && cells[r.value] != cells[cur]
    ensures r.Some? ==> LineFree(LineTo(cells, cur, r.value, space))
    ensures cur <= i && r.Some? ==> cur < r.value
    decreases i
  {
    if i <= 0 then None
    else if cells[i] == cells[cur] then None
    else if LineFree(LineTo(cells, cur, i, space)) then Some(i)
    else ScanFrom(cells, cur, space, i - 1)
  }

  /** The steering of one tick toward `dv`: friction per axis, acceleration
      along `dv`, the speed cap, and the facing taken from the speed. */
  function Steer(s: AIState, dv: Vec, lib: VectorLib): AIState
  {
    var v := SteerSpeed(s.speed, dv, lib);
    s.(speed := v, facing := lib.unit(v))
  }

  function SteerSpeed(v: Vec, dv: Vec, lib: VectorLib): Vec
  {
    Cap(lib, Accelerate(lib, FrictionVec(v), dv))
  }

  /** The steering block on a body, shared word for word by both AI
      variants: friction per axis, acceleration along `dv`, the cap; the
      result is the new facing, `Speed.Clone().Unit()`. */
  method SteerBody(body: BodyComponent, dv: Vec, lib: VectorLib) returns (facing: Vec)
    modifies body
    ensures body.speed == SteerSpeed(old(body.speed), dv, lib) && facing == lib.unit(body.speed)
    ensures body.x == old(body.x) && body.y == old(body.y)
    ensures body.hasOnBump == old(body.hasOnBump) && body.bumps == old(body.bumps)
  {
    ApplyAxisFriction(body);
    body.speed := Add(body.speed, Scale(lib.unit(dv), Accel));
    if MagSq(body.speed) > MaxSpeed * MaxSpeed {
      body.speed := ScaleTo(lib, body.speed, MaxSpeed);
    }
    facing := lib.unit(body.speed);
  }

  /** The replan timer: a forced replan at 3000, then one more tick. */
  function TimerStep(s: AIState, center: Vec, env: Env): AIState
  {
    var r := if s.timer >= ReplanPeriod then Replan(s.(timer := 0), center, env) else s;
    r.(timer := r.timer + 1)
  }

  /** The arrival handling for a path whose cursor is on a cell, with `dv`
      the offset from the body's centre to that cell's centre: inside the
      arrival radius the cursor advances (and may jump ahead through the
      shortcut scan, which also stops the body and re-aims `dv` at the cell
      after the new cursor) or, at the end of the path, a replan happens.
      Yields the new state and the direction to steer along. */
  function Arrive(s: AIState, center: Vec, env: Env, p: Path, dv: Vec): (AIState, Vec)
    requires 0 <= p.index < |p.cells|
  {
    if MagSq(dv) <= ArrivalSq then
      if !AtEnd(p) then
        var p1 := Advance(p);
        match ScanFrom(p1.cells, p1.index, env.space, |p1.cells| - 1)
        case None => (s.(path := Some(p1)), dv)
        case Some(i) =>
          (s.(path := Some(SetIndex(p1, i - 1)), speed := Zero),
           Sub(CellCentre(env.space, p1.cells[i]), center))
      else (Replan(s, center, env), dv)
    else (s, dv)
  }

  /** Path following after the timer step: without a path or a current cell
      the controller replans and does not steer. */
  function Follow(s: AIState, center: Vec, env: Env): AIState
  {
    match s.path
    case None => Replan(s, center, env)
    case Some(p) =>
      match Current(p)
      case None => Replan(s, center, env)
      case Some(cell) =>
        var a := Arrive(s, center, env, p, Sub(CellCentre(env.space, cell), center));
        Steer(a.0, a.1, env.lib)
  }

  /** One AI tick for a body whose centre is `center`. */
  function Tick(s: AIState, center: Vec, env: Env): AIState
  {
    Follow(TimerStep(s, center, env), center, env)
  }

  /** The solid test over one line, as the source's inner range loop with
      `break`. */
  method LineIsFree(cs: seq<SpaceCell>) returns (free: bool)
    ensures free == LineFree(cs)
  {
    free := true;
    var k := 0;
    while k < |cs|
      invariant 0 <= k <= |cs| && free
      invariant forall j :: 0 <= j < k ==> !ContainsSolid(cs[j])
    {
      if ContainsSolid(cs[k]) {
        free := false;
        break;
      }
      k := k + 1;
    }
  }

  /** The shortcut scan as the source's `for i := len-1; i > 0; i--` loop,
      which breaks on reaching the current cell or on the first clear
      line. */
  method FindShortcut(cells: seq<Cell>, cur: nat, space: Space) returns (r: Option<int>)
    requires cur < |cells|
    ensures r == ScanFrom(cells, cur, space, |cells| - 1)
    ensures r.Some? ==> cur < r.value < |cells|
  {
    r := None;
    var i := |cells| - 1;
    while i > 0
      invariant i <= |cells| - 1
      invariant ScanFrom(cells, cur, space, |cells| - 1) == ScanFrom(cells, cur, space, i)
      invariant r.None?
      decreases i
    {
      if cells[i] == cells[cur] {
        break;
      }
      var free := LineIsFree(LineTo(cells, cur, i, space));
      if free {
        r := Some(i);
        break;
      }
      i := i - 1;
    }
  }

  class AIControlComponent {
    var facing: Vec
    var targetPos: Vec
    var path: Option<Path>
    var pathRecalculationTimer: int
    /** Declared by the source and never read or written after
        construction. */
    var targetSpeed: Vec
    /** Every path-finder call made so far. */
    ghost var requests: seq<PathRequest>

    constructor ()
      ensures facing == Vec(0.0, 1.0) && targetPos == Zero && path.None?
      ensures pathRecalculationTimer == 0 && targetSpeed == Zero && requests == []
    {
      facing := Vec(0.0, 1.0);
      targetPos := Zero;
      path := None;
      pathRecalculationTimer := 0;
      targetSpeed := Zero;
      requests := [];
    }

    ghost function Snapshot(body: BodyComponent): AIState
      reads this, body
    {
      AIState(facing, targetPos, path, pathRecalculationTimer, body.speed, requests)
    }

    /** `RecalculatePath`, for the controller's body. */
    method RecalculatePath(body: BodyComponent, env: Env)
      modifies this
      ensures Snapshot(body) == Replan(old(Snapshot(body)), body.Center(), env)
      ensures targetSpeed == old(targetSpeed)
      ensures targetPos == (if env.player.Some? then env.player.value else old(targetPos))
      ensures requests == old(requests) +
        [PathRequest(body.Center().x, body.Center().y, targetPos.x, targetPos.y, false)]
    {
      var c := body.Center();
      if env.player.Some? {
        targetPos := env.player.value;
      }
      path := NewPath(env.finder(c.x, c.y, targetPos.x, targetPos.y, false));
      requests := requests + [PathRequest(c.x, c.y, targetPos.x, targetPos.y, false)];
    }

    /** The timer block at the top of `Update`. */
    method TimerTick(body: BodyComponent, env: Env)
      modifies this
      ensures Snapshot(body) == TimerStep(old(Snapshot(body)), body.Center(), env)
      ensures targetSpeed == old(targetSpeed)
    {
      if pathRecalculationTimer >= ReplanPeriod {
        pathRecalculationTimer := 0;
        RecalculatePath(body, env);
      }
      pathRecalculationTimer := pathRecalculationTimer + 1;
    }

    /** The `dv.Magnitude() <= 4` block: advance, scan for a shortcut, or
        replan at the end of the path. */
    method ArrivalStep(body: BodyComponent, env: Env, p0: Path, dv0: Vec) returns (dv: Vec)
      requires path == Some(p0) && 0 <= p0.index < |p0.cells|
      modifies this, body
      ensures (Snapshot(body), dv) == Arrive(old(Snapshot(body)), old(body.Center()), env, p0, dv0)
      ensures body.x == old(body.x) && body.y == old(body.y) && targetSpeed == old(targetSpeed)
      ensures body.hasOnBump == old(body.hasOnBump) && body.bumps == old(body.bumps)
    {
      dv := dv0;
      var center := body.Center();
      ghost var s0 := Snapshot(body);
      if MagSq(dv) <= ArrivalSq {
        if !AtEnd(p0) {
          var p := Advance(p0);
          path := Some(p);
          var i := FindShortcut(p.cells, p.index, env.space);
          if i.Some? {
            p := SetIndex(p, i.value - 1);
            path := Some(p);
            body.speed := Zero;
            var target := Next(p);
            dv := Sub(CellCentre(env.space, target.value), center);
          }
          assert Snapshot(body) == Arrive(s0, center, env, p0, dv0).0;
        } else {
          RecalculatePath(body, env);
          assert Snapshot(body) == Replan(s0, center, env);
        }
      }
    }

    /** Friction, acceleration along `dv`, the cap and the new facing. */
    method SteerStep(body: BodyComponent, dv: Vec, lib: VectorLib)
      modifies this, body
      ensures Snapshot(body) == Steer(old(Snapshot(body)), dv, lib)
      ensures body.x == old(body.x) && body.y == old(body.y) && targetSpeed == old(targetSpeed)
      ensures body.hasOnBump == old(body.hasOnBump) && body.bumps == old(body.bumps)
    {
      facing := SteerBody(body, dv, lib);
    }

    /** The path-following part of a tick, after the timer block. */
    method FollowPath(body: BodyComponent, env: Env)
      modifies this, body
      ensures Snapshot(body) == Follow(old(Snapshot(body)), old(body.Center()), env)
      ensures body.x == old(body.x) && body.y == old(body.y) && targetSpeed == old(targetSpeed)
      ensures body.hasOnBump == old(body.hasOnBump) && body.bumps == old(body.bumps)
    {
      if path.Some? {
        var p := path.value;
        var targetCell := Current(p);
        if targetCell.Some? {
          var center := body.Center();
          var dv := Sub(CellCentre(env.space, targetCell.value), center);
          dv := ArrivalStep(body, env, p, dv);
          SteerStep(body, dv, env.lib);
        } else {
          RecalculatePath(body, env);
        }
      } else {
        RecalculatePath(body, env);
      }
    }

    /** One tick of the controller.  Without a body nothing happens. */
    method Update(body: BodyComponent?, env: Env, sprite: Sprite?, draw: DrawComponent?)
      modifies this, body, sprite, draw
      ensures body == null ==> unchanged(this)
      ensures body == null && sprite != null ==> unchanged(sprite)
      ensures body == null && draw != null ==> unchanged(draw)
      ensures body != null ==>
        Snapshot(body) == Tick(old(Snapshot(body)), old(body.Center()), env) &&
        body.x == old(body.x) && body.y == old(body.y) && targetSpeed == old(targetSpeed)
      ensures body != null && sprite != null ==>
        sprite.current == (if AnimFor(body.speed).Some? then AnimFor(body.speed) else old(sprite.current)) &&
        sprite.playSpeed == (if body.speed == Zero then 0.0 else 1.0)
      ensures body != null && sprite != null && draw != null ==>
        draw.flipHorizontal == FlipFor(facing.x, old(draw.flipHorizontal))
      ensures body != null && sprite != null && body.speed == Zero && sprite.current.Some? ==>
        sprite.currentFrame == sprite.startOf(sprite.current.value)
      ensures body != null && sprite != null && AnimFor(body.speed).None? && body.speed != Zero ==>
        sprite.currentFrame == old(sprite.currentFrame)
      ensures body != null && sprite == null && draw != null ==>
        draw.flipHorizontal == old(draw.flipHorizontal)
      ensures body != null ==> body.hasOnBump == old(body.hasOnBump) && body.bumps == old(body.bumps)
    {
      if body != null {
        TimerTick(body, env);
        FollowPath(body, env);
        Present(body.speed, facing, sprite, draw);
      }
    }
  }

  /** A sequence of ticks, each with the body's centre and the environment
      of that tick. */
  function Run(s: AIState, ticks: seq<(Vec, Env)>): AIState
    decreases |ticks|
  {
    if ticks == [] then s
    else Run(Tick(s, ticks[0].0, ticks[0].1), ticks[1..])
  }

  /** The timer stays in [1, 3000]: a tick that starts at 3000 or more
      restarts it at 1 and forces a replan first, any other tick counts it
      up by one without that forced replan. */
  lemma TimerBounds(s: AIState, center: Vec, env: Env)
    requires 0 <= s.timer <= ReplanPeriod
    ensures 1 <= Tick(s, center, env).timer <= ReplanPeriod
    ensures Tick(s, center, env).timer == if s.timer >= ReplanPeriod then 1 else s.timer + 1
    ensures s.timer >= ReplanPeriod <==> |TimerStep(s, center, env).requests| == |s.requests| + 1
  {
  }

  /** Path requests are only ever appended, one per replan. */
  lemma RequestsGrow(s: AIState, center: Vec, env: Env)
    ensures s.requests <= Tick(s, center, env).requests
    ensures |Tick(s, center, env).requests| <= |s.requests| + 2
  {
  }

  /** When the timer block leaves no path, or a cursor outside it, the
      tick replans once more and leaves the speed and the facing alone;
      this covers a forced replan whose new path is nil or empty. */
  lemma NoCellReplans(s: AIState, center: Vec, env: Env)
    ensures var t := TimerStep(s, center, env);
      (t.path.None? || Current(t.path.value).None?) ==>
        Tick(s, center, env) == Replan(t, center, env) &&
        Tick(s, center, env).speed == s.speed && Tick(s, center, env).facing == s.facing
  {
  }

  /** Arriving at the last cell replans; arriving elsewhere advances the
      cursor without a path request. */
  lemma ArrivalOutcome(s: AIState, center: Vec, env: Env, p: Path)
    requires 0 <= p.index < |p.cells|
    requires MagSq(Sub(CellCentre(env.space, p.cells[p.index]), center)) <= ArrivalSq
    ensures var a := Arrive(s, center, env, p, Sub(CellCentre(env.space, p.cells[p.index]), center));
      (AtEnd(p) ==> a.0 == Replan(s, center, env)) &&
      (!AtEnd(p) ==>
        a.0.requests == s.requests && a.0.path.Some? &&
        a.0.path.value.cells == p.cells && a.0.path.value.index > p.index)
  {
  }

  /** Arrival handling moves the cursor only forward: unless it replans,
      the path keeps its cells and the cursor does not go back. */
  lemma ArriveMonotone(s: AIState, center: Vec, env: Env, p: Path, dv: Vec)
    requires 0 <= p.index < |p.cells| && s.path == Some(p)
    requires Arrive(s, center, env, p, dv).0.requests == s.requests
    ensures var q := Arrive(s, center, env, p, dv).0.path;
      q.Some? && q.value.cells == p.cells && p.index <= q.value.index < |p.cells|
  {
  }

  /** A tick that issues no path request keeps the path and moves its
      cursor only forward. */
  lemma TickMonotone(s: AIState, center: Vec, env: Env, p: Path)
    requires s.path == Some(p)
    requires |Tick(s, center, env).requests| == |s.requests|
    ensures var q := Tick(s, center, env).path;
      q.Some? && q.value.cells == p.cells && p.index <= q.value.index
  {
    RequestsGrow(s, center, env);
    var t := TimerStep(s, center, env);
    assert t.path == Some(p);
    assert Current(p).Some?;
    var dv := Sub(CellCentre(env.space, p.cells[p.index]), center);
    ArriveMonotone(t, center, env, p, dv);
  }

  /** Over any run of ticks that issues no path request, the path stays
      the same list of cells and the cursor never decreases. */
  lemma {:induction false} RunMonotone(s: AIState, ticks: seq<(Vec, Env)>, p: Path)
    requires s.path == Some(p)
    requires |Run(s, ticks).requests| == |s.requests|
    ensures var q := Run(s, ticks).path;
      q.Some? && q.value.cells == p.cells && p.index <= q.value.index
    decreases |ticks|
  {
    if ticks != [] {
      var t := Tick(s, ticks[0].0, ticks[0].1);
      RequestsGrow(s, ticks[0].0, ticks[0].1);
      RunRequestsGrow(t, ticks[1..]);
      TickMonotone(s, ticks[0].0, ticks[0].1, p);
      RunMonotone(t, ticks[1..], t.path.value);
    }
  }

  lemma {:induction false} RunRequestsGrow(s: AIState, ticks: seq<(Vec, Env)>)
    ensures s.requests <= Run(s, ticks).requests
    decreases |ticks|
  {
    if ticks != [] {
      var t := Tick(s, ticks[0].0, ticks[0].1);
      RequestsGrow(s, ticks[0].0, ticks[0].1);
      RunRequestsGrow(t, ticks[1..]);
    }
  }

  /** The shortcut scan takes the farthest cell in clear line: every cell
      beyond the chosen one was tested and found blocked.  Over a path
      without repeated cells, no shortcut means every later cell is
      blocked. */
  lemma {:induction false} ScanFarthest(cells: seq<Cell>, cur: nat, space: Space, i: int)
    requires cur <= i < |cells|
    ensures var r := ScanFrom(cells, cur, space, i);
      r.Some? ==> forall k :: r.value < k <= i ==> !LineFree(LineTo(cells, cur, k, space))
    ensures ScanFrom(cells, cur, space, i).None? && Distinct(cells) ==>
      forall k :: cur < k <= i ==> !LineFree(LineTo(cells, cur, k, space))
    decreases i
  {
    if i > 0 && cells[i] != cells[cur] && !LineFree(LineTo(cells, cur, i, space)) {
      if cur <= i - 1 {
        ScanFarthest(cells, cur, space, i - 1);
      }
    }
  }

  /** When the scan finds a shortcut to cell `i`, the cursor lands just
      before it, the next target is cell `i`, and the body restarts from
      rest: its new speed is one acceleration step toward that cell. */
  lemma ShortcutEffect(s: AIState, center: Vec, env: Env, p: Path, dv: Vec, i: int)
    requires 0 <= p.index < |p.cells| && MagSq(dv) <= ArrivalSq && !AtEnd(p)
    requires ScanFrom(p.cells, p.index + 1, env.space, |p.cells| - 1) == Some(i)
    ensures var a := Arrive(s, center, env, p, dv);
      a.0.path == Some(Path(p.cells, i - 1)) &&
      Next(a.0.path.value) == Some(p.cells[i]) &&
      a.1 == Sub(CellCentre(env.space, p.cells[i]), center) &&
      Steer(a.0, a.1, env.lib).speed == Cap(env.lib, Scale(env.lib.unit(a.1), Accel))
  {
    assert Advance(p).index == p.index + 1;
  }

  /** A replan aims at the player when there is one and otherwise at the
      cached target, which it keeps; the request never allows diagonals. */
  lemma ReplanTarget(s: AIState, center: Vec, env: Env)
    ensures var r := Replan(s, center, env);
      r.targetPos == (if env.player.Some? then env.player.value else s.targetPos) &&
      r.requests == s.requests + [PathRequest(center.x, center.y, r.targetPos.x, r.targetPos.y, false)] &&
      r.path == NewPath(env.finder(center.x, center.y, r.targetPos.x, r.targetPos.y, false))
  {
  }
}
