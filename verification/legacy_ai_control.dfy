/** The older AI controller kept in component.go: it replans every 30
    ticks, steers toward the cell after the cursor, and never advances the
    cursor on arrival; instead it jumps three cells ahead when the point
    halfway to that cell lies in a free cell of the collision space. */
module LegacyAIControl {
  import opened Prelude
  import opened Vectors
  import opened Slices
  import opened Bodies
  import opened Paths
  import opened Steering
  import opened Presentation
  import opened AIControl

  /** Ticks between forced replans. */
  const LegacyReplanPeriod: int := 30

  /** How far ahead the lookahead jump goes. */
  const JumpLength: int := 3

  /** The centre of a path cell, with the 16-pixel cell size written into
      the source. */
  function NextCentre(c: Cell): Vec
  {
    Vec((c.x * 16) as real + 8.0, (c.y * 16) as real + 8.0)
  }

  /** The centre of a path cell through the path-finding grid:
      `GridToWorld` plus half the grid cell size (integer division). */
  function GridCentre(grid: Grid, c: Cell): Vec
  {
    var w := grid.gridToWorld(c.x, c.y);
    Vec(w.0 + GoHalf(grid.cellWidth) as real, w.1 + GoHalf(grid.cellHeight) as real)
  }

  /** The point halfway from `from` to `to`: `from + (to - from) * 0.5`. */
  function Midpoint(from: Vec, to: Vec): (m: Vec)
    ensures Sub(m, from) == Sub(to, m)
  {
    Add(from, Scale(Sub(to, from), 0.5))
  }

  /** The collision-space cell under a world point exists and holds no
      solid. */
  predicate ClearAt(space: Space, pt: Vec)
  {
    var t := space.worldToSpace(pt.x, pt.y);
    match space.cellAt(t.0, t.1)
    case None => false
    case Some(c) => !ContainsSolid(c)
  }

  /** The lookahead: within the arrival radius of the target and not at the
      end, with a cell three ahead whose midpoint from the body is clear,
      the cursor moves to the first occurrence of that cell. */
  function Lookahead(p: Path, center: Vec, dv: Vec, space: Space, grid: Grid): Path
  {
    if MagSq(dv) <= ArrivalSq && !AtEnd(p) then
      match Get(p, p.index + JumpLength)
      case None => p
      case Some(potential) =>
        if ClearAt(space, Midpoint(center, GridCentre(grid, potential)))
        then SetIndex(p, Index(p, potential))
        else p
    else p
  }

  /** The timer block, with the 30-tick period. */
  function LegacyTimerStep(s: AIState, center: Vec, env: Env): AIState
  {
    var r := if s.timer >= LegacyReplanPeriod then Replan(s.(timer := 0), center, env) else s;
    r.(timer := r.timer + 1)
  }

  /** Path following after the timer: without a path or without a cell
      after the cursor the controller replans and does not steer; otherwise
      it may jump ahead and then steers toward the cell after the old
      cursor. */
  function LegacyFollow(s: AIState, center: Vec, env: Env, grid: Grid): AIState
  {
    match s.path
    case None => Replan(s, center, env)
    case Some(p) =>
      match Next(p)
      case None => Replan(s, center, env)
      case Some(cell) =>
        var dv := Sub(NextCentre(cell), center);
        Steer(s.(path := Some(Lookahead(p, center, dv, env.space, grid))), dv, env.lib)
  }

  function LegacyTick(s: AIState, center: Vec, env: Env, grid: Grid): AIState
  {
    LegacyFollow(LegacyTimerStep(s, center, env), center, env, grid)
  }

  /** The timer stays in [1, 30]: a tick starting at 30 or more restarts it
      at 1 after a forced replan; any other tick counts it up by one. */
  lemma LegacyTimerBounds(s: AIState, center: Vec, env: Env, grid: Grid)
    requires 0 <= s.timer <= LegacyReplanPeriod
    ensures 1 <= LegacyTimerStep(s, center, env).timer <= LegacyReplanPeriod
    ensures LegacyTimerStep(s, center, env).timer == if s.timer >= LegacyReplanPeriod then 1 else s.timer + 1
    ensures s.timer >= LegacyReplanPeriod <==>
      |LegacyTimerStep(s, center, env).requests| == |s.requests| + 1
    ensures LegacyTick(s, center, env, grid).timer == LegacyTimerStep(s, center, env).timer
  {
  }

  /** Without a path, or at the last cell, the older controller replans
      and leaves the speed and the facing alone. */
  lemma LegacyNoNextReplans(s: AIState, center: Vec, env: Env, grid: Grid)
    requires s.path.None? || Next(s.path.value).None?
    ensures LegacyFollow(s, center, env, grid) == Replan(s, center, env)
    ensures LegacyFollow(s, center, env, grid).speed == s.speed
    ensures LegacyFollow(s, center, env, grid).facing == s.facing
  {
  }

  /** The lookahead changes the cursor only by a jump to the first
      occurrence of the cell three ahead, and only under the arrival,
      not-at-end and clear-midpoint conditions; the cells never change. */
  lemma LookaheadCases(p: Path, center: Vec, dv: Vec, space: Space, grid: Grid)
    ensures var q := Lookahead(p, center, dv, space, grid);
      q.cells == p.cells &&
      (q == p ||
        (MagSq(dv) <= ArrivalSq && !AtEnd(p) &&
         0 <= p.index + JumpLength < |p.cells| &&
         ClearAt(space, Midpoint(center, GridCentre(grid, p.cells[p.index + JumpLength]))) &&
         q.index == Index(p, p.cells[p.index + JumpLength])))
  {
  }

  /** In a path without repeated cells, a jump lands exactly three cells
      ahead, and it is taken whenever its conditions hold. */
  lemma LookaheadJumpsThree(p: Path, center: Vec, dv: Vec, space: Space, grid: Grid)
    requires Distinct(p.cells) && 0 <= p.index
    ensures var q := Lookahead(p, center, dv, space, grid);
      q.index == p.index || q.index == p.index + JumpLength
    ensures (MagSq(dv) <= ArrivalSq && !AtEnd(p) && p.index + JumpLength < |p.cells| &&
             ClearAt(space, Midpoint(center, GridCentre(grid, p.cells[p.index + JumpLength])))) ==>
      Lookahead(p, center, dv, space, grid).index == p.index + JumpLength
  {
    if MagSq(dv) <= ArrivalSq && !AtEnd(p) && p.index + JumpLength < |p.cells| {
      IndexOfGet(p, p.index + JumpLength);
    }
  }

  /** In a path without repeated cells, a tick that issues no path request
      keeps the path and moves the cursor only forward. */
  lemma LegacyTickMonotone(s: AIState, center: Vec, env: Env, grid: Grid, p: Path)
    requires s.path == Some(p) && Distinct(p.cells) && 0 <= p.index
    requires |LegacyTick(s, center, env, grid).requests| == |s.requests|
    ensures var q := LegacyTick(s, center, env, grid).path;
      q.Some? && q.value.cells == p.cells && p.index <= q.value.index
  {
    var t := LegacyTimerStep(s, center, env);
    assert t.path == Some(p);
    var cell := Next(p).value;
    LookaheadJumpsThree(p, center, Sub(NextCentre(cell), center), env.space, grid);
  }

  /** A sequence of older-controller ticks. */
  function LegacyRun(s: AIState, ticks: seq<(Vec, Env)>, grid: Grid): AIState
    decreases |ticks|
  {
    if ticks == [] then s
    else LegacyRun(LegacyTick(s, ticks[0].0, ticks[0].1, grid), ticks[1..], grid)
  }

  lemma {:induction false} LegacyRunRequestsGrow(s: AIState, ticks: seq<(Vec, Env)>, grid: Grid)
    ensures s.requests <= LegacyRun(s, ticks, grid).requests
    decreases |ticks|
  {
    if ticks != [] {
      var t := LegacyTick(s, ticks[0].0, ticks[0].1, grid);
      assert s.requests <= t.requests;
      LegacyRunRequestsGrow(t, ticks[1..], grid);
    }
  }

  /** Over a run with no path request, on a path without repeated cells,
      the cursor never goes back. */
  lemma {:induction false} LegacyRunMonotone(s: AIState, ticks: seq<(Vec, Env)>, grid: Grid, p: Path)
    requires s.path == Some(p) && Distinct(p.cells) && 0 <= p.index
    requires |LegacyRun(s, ticks, grid).requests| == |s.requests|
    ensures var q := LegacyRun(s, ticks, grid).path;
      q.Some? && q.value.cells == p.cells && p.index <= q.value.index
    decreases |ticks|
  {
    if ticks != [] {
      var t := LegacyTick(s, ticks[0].0, ticks[0].1, grid);
      assert s.requests <= t.requests;
      LegacyRunRequestsGrow(t, ticks[1..], grid);
      LegacyTickMonotone(s, ticks[0].0, ticks[0].1, grid, p);
      LegacyRunMonotone(t, ticks[1..], grid, t.path.value);
    }
  }

  class LegacyAIControlComponent {
    var facing: Vec
    var targetPos: Vec
    var path: Option<Path>
    var pathRecalculationTimer: int
    /** Every path-finder call made so far. */
    ghost var requests: seq<PathRequest>

    constructor ()
      ensures facing == Vec(0.0, 1.0) && targetPos == Zero && path.None?
      ensures pathRecalculationTimer == 0 && requests == []
    {
      facing := Vec(0.0, 1.0);
      targetPos := Zero;
      path := None;
      pathRecalculationTimer := 0;
      requests := [];
    }

    ghost function Snapshot(body: BodyComponent): AIState
      reads this, body
    {
      AIState(facing, targetPos, path, pathRecalculationTimer, body.speed, requests)
    }

    /** `RecalculatePath`, for the controller's body. */
    method RecalculatePath(body: BodyComponent, env: Env)
      modifies this
      ensures Snapshot(body) == Replan(old(Snapshot(body)), body.Center(), env)
      ensures targetPos == (if env.player.Some? then env.player.value else old(targetPos))
      ensures requests == old(requests) +
        [PathRequest(body.Center().x, body.Center().y, targetPos.x, targetPos.y, false)]
    {
      var c := body.Center();
      if env.player.Some? {
        targetPos := env.player.value;
      }
      path := NewPath(env.finder(c.x, c.y, targetPos.x, targetPos.y, false));
      requests := requests + [PathRequest(c.x, c.y, targetPos.x, targetPos.y, false)];
    }

    method TimerTick(body: BodyComponent, env: Env)
      modifies this
      ensures Snapshot(body) == LegacyTimerStep(old(Snapshot(body)), body.Center(), env)
    {
      if pathRecalculationTimer >= LegacyReplanPeriod {
        pathRecalculationTimer := 0;
        RecalculatePath(body, env);
      }
      pathRecalculationTimer := pathRecalculationTimer + 1;
    }

    /** The lookahead block on the stored path. */
    method LookaheadStep(center: Vec, dv: Vec, space: Space, grid: Grid)
      requires path.Some?
      modifies this
      ensures path == Some(Lookahead(old(path.value), center, dv, space, grid))
      ensures facing == old(facing) && targetPos == old(targetPos)
      ensures pathRecalculationTimer == old(pathRecalculationTimer) && requests == old(requests)
    {
      var p := path.value;
      if MagSq(dv) <= ArrivalSq && !AtEnd(p) {
        var potential := Get(p, p.index + JumpLength);
        if potential.Some? {
          var pt := GridCentre(grid, potential.value);
          var diff := Scale(Sub(pt, center), 0.5);
          var t := space.worldToSpace(center.x + diff.x, center.y + diff.y);
          var midPoint := space.cellAt(t.0, t.1);
          if midPoint.Some? && !ContainsSolid(midPoint.value) {
            path := Some(SetIndex(p, Index(p, potential.value)));
          }
        }
      }
    }

    /** Path following after the timer block. */
    method FollowPath(body: BodyComponent, env: Env, grid: Grid)
      modifies this, body
      ensures Snapshot(body) == LegacyFollow(old(Snapshot(body)), old(body.Center()), env, grid)
      ensures body.x == old(body.x) && body.y == old(body.y)
      ensures body.hasOnBump == old(body.hasOnBump) && body.bumps == old(body.bumps)
    {
      if path.Some? {
        var targetCell := Next(path.value);
        if targetCell.Some? {
          var center := body.Center();
          var dv := Sub(NextCentre(targetCell.value), center);
          LookaheadStep(center, dv, env.space, grid);
          facing := SteerBody(body, dv, env.lib);
        } else {
          RecalculatePath(body, env);
        }
      } else {
        RecalculatePath(body, env);
      }
    }

    /** One tick of the older controller.  Without a body nothing
        happens. */
    method Update(body: BodyComponent?, env: Env, grid: Grid, sprite: Sprite?, draw: DrawComponent?)
      modifies this, body, sprite, draw
      ensures body == null ==> unchanged(this)
      ensures body == null && sprite != null ==> unchanged(sprite)
      ensures body == null && draw != null ==> unchanged(draw)
      ensures body != null ==>
        Snapshot(body) == LegacyTick(old(Snapshot(body)), old(body.Center()), env, grid) &&
        body.x == old(body.x) && body.y == old(body.y)
      ensures body != null && sprite != null ==>
        sprite.current == (if AnimFor(body.speed).Some? then AnimFor(body.speed) else old(sprite.current)) &&
        sprite.playSpeed == (if body.speed == Zero then 0.0 else 1.0)
      ensures body != null && sprite != null && draw != null ==>
        draw.flipHorizontal == FlipFor(facing.x, old(draw.flipHorizontal))
      ensures body != null && sprite != null && body.speed == Zero && sprite.current.Some? ==>
        sprite.currentFrame == sprite.startOf(sprite.current.value)
      ensures body != null && sprite != null && AnimFor(body.speed).None? && body.speed != Zero ==>
        sprite.currentFrame == old(sprite.currentFrame)
      ensures body != null && sprite == null && draw != null ==>
        draw.flipHorizontal == old(draw.flipHorizontal)
      ensures body != null ==> body.hasOnBump == old(body.hasOnBump) && body.bumps == old(body.bumps)
    {
      if body != null {
        TimerTick(body, env);
        FollowPath(body, env, grid);
        Present(body.speed, facing, sprite, draw);
      }
    }
  }
}
