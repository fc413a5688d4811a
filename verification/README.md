# LDJam46 simulation core, modelled in Dafny

LDJam46 is a small top-down game written in Go. A level holds game objects. Each game object holds components: a body, a player or AI controller, a camera follower, a depth sorter, a weapon, a sprite and a draw component. Every tick, the level sorts its objects by depth and updates each one. It then removes the objects queued for removal. Each object updates its components and then removes the components queued for removal.

This project models the per-tick rules of that core and proves properties about them:

- **Body** (`body.dfy`, module `Bodies`).
  - The box moves along X, then along Y from the new position.
  - On each axis, a blocked move puts the box at the contact offset. The box then either slides along the other axis, when the slide is shorter than 4, or loses its speed on that axis.
  - The bump callback runs once per blocked axis.
- **AI controller** (`ai_control.dfy`, module `AIControl`).
  - The controller follows a path to the player and replans every 3000 ticks.
  - On reaching the current cell, it advances the path cursor, or replans when the path is finished.
  - It cuts corners. A backward scan picks the farthest path cell whose line of sight holds no "solid" cell.
  - It applies per-axis friction, acceleration toward the target, and a speed cap.
- **Older AI controller** kept in component.go (`legacy_ai_control.dfy`, module `LegacyAIControl`).
  - It replans every 30 ticks and steers toward the cell after the cursor.
  - Instead of advancing the cursor, it jumps three cells ahead when the midpoint toward that cell is free.
- **Player controller** (`player_control.dfy`, module `PlayerControl`).
  - The arrow keys give a direction. X fires the weapon along the facing.
  - Friction acts on the speed's magnitude, then acceleration and the cap apply.
  - The facing follows the speed while a direction is held.
- **Shared rules** (`steering.dfy`, `presentation.dfy`).
  - The friction, acceleration and cap rules shared by the controllers.
  - The table from speed to animation name, the freeze-frame when stopped, and the sprite flip.
- **Game object** (`gameobject.dfy`, module `GameObjects`): the component list, its hooks, and deferred removal.
- **Level** (`level.dfy`, module `Levels`).
  - The object list, the deferred removal queue, and the end-of-tick removal pass.
  - The depth comparator used by the sort.
  - The lookup of objects by component kind, and one 16x16 solid per wall cell.
- **Tiles** (`tiles.dfy`, module `Tiles`): how a cell picks its tile and its rotation from its neighbours.
- **Camera follower** (`camera_follow.dfy`): a lerp toward the body, then clamping to the level.
- **Depth sorter** (`depth_sort.dfy`): y-sort depth.
- **Image cache** (`resources.dfy`): a memoising cache.
- **Shared support**:
  - `slices.dfy`: Go's `range` loop that splices the slice it is ranging over. The backing array is modelled exactly.
  - `paths.dfy`: what the AI relies on from the path-finding and collision libraries.
  - `vectors.dfy` and `prelude.dfy`: vectors and small helpers.

The style follows the Go code. Components whose fields the Go code updates in place are classes with `modifies` clauses, and loops stay loops with invariants. Each stateful method is tied to a pure specification function: `Resolve`, `Tick`, `LegacyTick`, `Fetch`, `FilterOut`, `Scanned` and `WithKind`. The lemmas about those functions state what the game promises.

Everything the core calls but does not define is an explicit input:

- **Collision checks** are a `Checker` function value.
- **Path finder** is a `PathFinder` function value.
- **Collision space** is a `Space` record of function values.
- **Path-finding grid** is a `Grid` record.
- **Square-root-based vector operations** come from a `VectorLib` with `unit` and `magnitude`. Magnitudes are compared through their squares, and `Magnitude() == 0` is written `v == Zero`.
- **Keyboard** is an `Input` value.
- **Loaded image** is a parameter.
- **Floor tile's random variant** is a boolean.
- **Order produced by the depth sort** is a permutation argument.

Component hooks (`OnAdd`, `OnRemove`, `Update`), bump callbacks, weapon shots and path-finder calls are recorded in ghost logs. The contracts can therefore say which calls happen, and in which order.

## Model

| member | source | states |
|---|---|---|
| Prelude.GoHalf | cCameraFollow.go:19-20 | Go's integer `n / 2` truncates toward zero: for n ≥ 0 the result h satisfies 2h ≤ n < 2h+2, and symmetrically for negative n |
| Bodies.BodyComponent.constructor | cBody.go:22-29 | a new body has the given box and zero speed, and no bump callback has run yet |
| Bodies.BodyComponent.Center | cBody.go:87-92 | the centre is equidistant from opposite edges, and lies inside the box when the box size is non-negative |
| Bodies.BodyComponent.Update | cBody.go:37-65 | the new position and speed are `Resolve` (X step, then Y step from the new position) of the old state; the bump count grows by the number of blocked axes exactly when a callback is installed; the copy in component.go at lines 162-190 is identical |
| Bodies.FreeMotion | cBody.go:49-50 | with both checks free, the body moves by exactly its speed on each axis and keeps its speed |
| Bodies.BlockedX | cBody.go:39-48 | a blocked X move lands at ContactX; it slides by SlideY and keeps Speed.x iff CanSlide and \|SlideY\| < 4, and otherwise stays on its row with Speed.x zeroed |
| Bodies.BlockedY | cBody.go:53-62 | a blocked Y move lands at ContactY; it slides by SlideX and keeps Speed.y iff CanSlide and \|SlideX\| < 4, and otherwise Speed.y is zeroed |
| Bodies.SpeedOnlyZeroed | cBody.go:39-65 | each speed component after an update is either unchanged or exactly 0 |
| Bodies.HitsCount | cBody.go:39-56 | the bump count grows by one per blocked axis, at most 2; the Y check is made from the position the X step produced |
| Bodies.RestIsStable | cBody.go:39-65 | a resting body with a free check is left exactly where it is |
| Paths.Current | cAIControl.go:51 | `Current()` is the cell under the cursor, and nil exactly when the cursor is outside the path (library semantics assumed) |
| Paths.Get | component.go:479 | `Get(i)` is the i-th cell, and nil exactly when i is outside the path |
| Paths.Next | cAIControl.go:109 | `Next()` is `Get(CurrentIndex + 1)` |
| Paths.SetIndex | cAIControl.go:106 | `SetIndex(i)` keeps the cells, puts the cursor at i when i is inside the path, and clamps it otherwise |
| Paths.Advance | cAIControl.go:84-86 | `Advance()` moves the cursor one cell forward when not at the end, and leaves it on the last cell otherwise |
| Paths.Index | component.go:499 | `Index(c)` is the first position of c, or -1 exactly when c is not on the path |
| Paths.NewPath | cAIControl.go:240 | a path from `GetPath` has the returned cells and a cursor at 0; nil stays nil |
| Paths.IndexOfGet | component.go:479-499 | on a path without repeated cells, `Index(Get(i))` is i |
| Steering.FrictionAxis | cAIControl.go:133-147 | per-axis friction reduces the magnitude by 0.25, or snaps it to 0 when it is at most 0.25, and never flips the sign |
| Steering.ApplyAxisFriction | cAIControl.go:133-147 | the two if-chains on the body's speed give `FrictionVec` of the old speed; nothing else about the body changes; the copy in component.go at lines 510-524 is identical |
| Steering.FrictionSlows | cAIControl.go:133-147 | friction never speeds up an axis, and the speed becomes zero iff both components lie within 0.25 |
| Steering.CapBound | cAIControl.go:151-153 | after the cap the squared speed is at most 2², and a speed already within the cap is left alone (given unit vectors) |
| Steering.PlayerFrictionStops | cPlayerControl.go:64-66 | a speed whose magnitude is below 0.25 becomes exactly (0, 0); the copy in component.go at lines 272-274 is identical |
| Presentation.AnimFor | cPlayerControl.go:90-115 | each animation name corresponds to its speed region, in both directions, with the 0.3 gates; no animation iff both components are within 0.3 |
| Presentation.AnimMirror | cPlayerControl.go:95-97 | the animation choice ignores the sign of the horizontal speed |
| Presentation.FlipFor | cPlayerControl.go:132-136 | facing left flips, facing right unflips, and a facing with no horizontal part keeps the old flip |
| Presentation.Sprite.Play | cPlayerControl.go:105-115 | playing an animation makes it the current one and keeps the play speed |
| Presentation.DrawComponent.constructor | cDraw.go:20-22 | a new draw component is not flipped |
| Presentation.Present | cAIControl.go:165-216 | the current animation is the speed's animation when there is one, and the old one otherwise; play speed is 0 iff the speed is zero, with the frame reset to the animation's start; a moving body with no chosen animation keeps its frame; the flip follows `FlipFor`, and only when the object has an animation |
| AIControl.LineFree | cAIControl.go:96-103 | a line is free iff none of its cells holds a "solid" tag |
| AIControl.LineIsFree | cAIControl.go:96-103 | the inner range loop with `break` computes `LineFree` |
| AIControl.ScanFrom | cAIControl.go:88-121 | a shortcut found is a positive index beyond the cursor, at or below the starting index, whose cell differs from the current one and whose line is free |
| AIControl.FindShortcut | cAIControl.go:88-121 | the backward `for i` loop with its two `break`s computes `ScanFrom` from the last index, and any result lies past the cursor |
| AIControl.ScanFarthest | cAIControl.go:88-121 | the shortcut taken is the farthest one: every index beyond it has a blocked line; with distinct cells, no shortcut means every later cell is blocked |
| AIControl.SteerBody | cAIControl.go:129-155 | friction, then acceleration along dv, then the cap give `SteerSpeed`; the facing is the unit vector of the new speed; the position is untouched |
| AIControl.AIControlComponent.constructor | cAIControl.go:24-29 | a new AI faces (0, 1), has target (0, 0), no path and timer 0 |
| AIControl.AIControlComponent.RecalculatePath | cAIControl.go:224-244 | the state becomes `Replan` of the old state from the body's centre: the target is the player's centre when a player exists and the cached target otherwise, and exactly one `GetPath` request from the body's centre to that target, with diagonals off, is appended |
| AIControl.ReplanTarget | cAIControl.go:233-240 | a replan aims at the player's centre when a player exists, and otherwise keeps the cached target; it records one `GetPath` request with diagonals off |
| AIControl.AIControlComponent.TimerTick | cAIControl.go:43-47 | the timer block is `TimerStep`: replan at ≥ 3000 after resetting to 0, then count up |
| AIControl.TimerBounds | cAIControl.go:43-47 | started in [0, 3000], the timer stays in [1, 3000]; a forced replan (one extra request) happens iff the timer was ≥ 3000 |
| AIControl.AIControlComponent.ArrivalStep | cAIControl.go:82-127 | the arrival block (advance plus shortcut scan, or a replan at the end) is `Arrive` of the old state, including the new steering direction |
| AIControl.ArrivalOutcome | cAIControl.go:82-125 | arrival at the last cell replans; arrival elsewhere makes no request, keeps the cells and moves the cursor strictly forward |
| AIControl.ArriveMonotone | cAIControl.go:84-121 | arrival handling without a replan keeps the path and never moves the cursor back |
| AIControl.ShortcutEffect | cAIControl.go:105-118 | a shortcut to cell i puts the cursor at i-1, makes cell i the `Next()` target, resets the speed to zero (so the new speed is one capped acceleration step) and aims dv at cell i |
| AIControl.AIControlComponent.SteerStep | cAIControl.go:129-155 | steering changes the speed and the facing as `Steer` says, and nothing else |
| AIControl.AIControlComponent.FollowPath | cAIControl.go:49-163 | path following is `Follow` of the old state; the position and the body's bump callback and bump count are kept |
| AIControl.NoCellReplans | cAIControl.go:43-163 | whenever the timer block (including a forced replan) leaves a nil path or a nil current cell, the tick replans once more and steers nowhere: speed and facing are kept |
| AIControl.AIControlComponent.Update | cAIControl.go:35-222 | with a body, the state after the tick is `Tick` of the old state and the position is unchanged; the body's bump callback and bump count are kept; the sprite follows `Present`: chosen animation, play speed 0 iff stopped, frame reset to the animation's start when stopped, frame kept when moving with no chosen animation; the flip follows `FlipFor` of the facing when there is a sprite and is left alone when there is none; without a body nothing changes |
| AIControl.RequestsGrow | cAIControl.go:43-163 | a tick only appends path requests, at most two |
| AIControl.TickMonotone | cAIControl.go:43-163 | a tick that makes no path request keeps the path and never moves its cursor back |
| AIControl.RunRequestsGrow | cAIControl.go:35-222 | over any run of ticks, the request log only grows |
| AIControl.RunMonotone | cAIControl.go:35-222 | over any run of ticks without a path request, the path stays the same and the cursor never decreases |
| LegacyAIControl.Midpoint | component.go:489-494 | the midpoint is equally far from both ends |
| LegacyAIControl.LegacyAIControlComponent.constructor | component.go:421-426 | a new older AI faces (0, 1), has target (0, 0), no path and timer 0 |
| LegacyAIControl.LegacyAIControlComponent.RecalculatePath | component.go:601-621 | the state becomes `Replan` of the old state from the body's centre: the target is the player's centre when a player exists and the cached target otherwise, and exactly one `GetPath` request to it, with diagonals off, is appended |
| LegacyAIControl.LegacyAIControlComponent.TimerTick | component.go:440-444 | the timer block is `LegacyTimerStep`, with period 30 |
| LegacyAIControl.LegacyTimerBounds | component.go:440-444 | started in [0, 30], the timer stays in [1, 30] after the timer block and after the whole tick, which leaves the timer alone past that block; a forced replan happens iff the timer was ≥ 30 |
| LegacyAIControl.LegacyAIControlComponent.LookaheadStep | component.go:477-500 | the block that scales `diff`, converts it to a space cell and calls `SetIndex` is `Lookahead` of the old path |
| LegacyAIControl.LookaheadCases | component.go:477-500 | the lookahead keeps the cells, and changes the cursor only to `Index` of the cell three ahead, and only when within 4 of the target, not at the end, with that cell present and a free midpoint cell |
| LegacyAIControl.LookaheadJumpsThree | component.go:477-500 | on a path without repeated cells, the cursor either stays or moves exactly +3, and it moves whenever the conditions hold |
| LegacyAIControl.LegacyNoNextReplans | component.go:446-448 | with a nil path or a nil next cell, the older AI replans and keeps speed and facing |
| LegacyAIControl.LegacyAIControlComponent.FollowPath | component.go:446-540 | path following is `LegacyFollow`: steer toward the `Next()` taken before the lookahead, or replan; the position and the body's bump callback and bump count are kept |
| LegacyAIControl.LegacyAIControlComponent.Update | component.go:432-599 | with a body, the state after the tick is `LegacyTick` of the old state; the body's bump callback and bump count are kept; the sprite follows `Present`: chosen animation, play speed 0 iff stopped, frame reset to the animation's start when stopped, frame kept when moving with no chosen animation; the flip follows `FlipFor` of the facing when there is a sprite and is left alone when there is none; without a body nothing changes |
| LegacyAIControl.LegacyTickMonotone | component.go:440-540 | on a path without repeated cells, a tick without a path request keeps the path and never moves the cursor back |
| LegacyAIControl.LegacyRunRequestsGrow | component.go:432-599 | over any run of older-AI ticks, the request log only grows |
| LegacyAIControl.LegacyRunMonotone | component.go:432-599 | over any run without a path request, on a path without repeated cells, the cursor never decreases |
| PlayerControl.MoveDirRange | cPlayerControl.go:40-54 | each axis of the direction is -1, 0 or 1; the direction is zero iff opposite keys agree; x = 1 iff right without left, y = -1 iff up without down |
| PlayerControl.ReadDirection | cPlayerControl.go:40-54 | the four `++`/`--` statements build `MoveDir` of the keys |
| PlayerControl.IdleTick | cPlayerControl.go:64-82 | without a direction, only friction acts, the facing is kept, and a speed under 0.25 stops exactly |
| PlayerControl.PlayerSpeedBound | cPlayerControl.go:72-78 | while a direction is held, the new speed is within the cap of 2 (given unit vectors) |
| PlayerControl.WeaponComponent.constructor | cWeapon.go:18-20 | a new weapon has a zero fire direction and has fired nothing |
| PlayerControl.WeaponComponent.Fire | cWeapon.go:30-42 | firing records one shot along the fire direction held before the call; the bullet's `Scale(4)` (library.go:49) scales that vector in place, so the weapon is left holding four times it |
| PlayerControl.PlayerControlComponent.constructor | cPlayerControl.go:18-22 | the initial facing is (0, 1) |
| PlayerControl.PlayerControlComponent.Move | cPlayerControl.go:64-82 | the speed becomes `PlayerSpeed` and the facing becomes `PlayerFacing` of the old values; the position is untouched |
| PlayerControl.PlayerControlComponent.Update | cPlayerControl.go:28-144 | with a body: the speed and facing follow `PlayerSpeed`/`PlayerFacing` of the keys; the weapon fires exactly when X was just pressed and a weapon exists, along the facing before the move, and is left holding four times that facing; the body's bump callback and bump count are kept; the sprite follows `Present`: chosen animation, play speed 0 iff stopped, frame reset to the animation's start when stopped, frame kept when moving with no chosen animation; the flip follows `FlipFor` of the facing when there is a sprite and is left alone when there is none; without a body nothing changes |
| GameObjects.FirstOfKind | gameobject.go:65-75 | the first component with the tag, with no earlier match; None iff no component has the tag |
| GameObjects.GameObject.constructor | gameobject.go:11-18 | a new object has no components and nothing queued |
| GameObjects.GameObject.Add | gameobject.go:42-47 | the components are appended in argument order, each after its own `OnAdd` |
| GameObjects.AddKeepsDistinct | gameobject.go:42-47 | appending fresh, distinct components keeps the list free of repetitions |
| GameObjects.GameObject.RemoveFirst | gameobject.go:53-59 | the inner loop removes the first identical component and calls its `OnRemove`; an absent component changes nothing |
| GameObjects.GameObject.Remove | gameobject.go:49-63 | the list becomes `DeleteEach` of the old list; the `OnRemove` calls are `RemoveLog` |
| GameObjects.RemoveLogExact | gameobject.go:49-63 | on a list without repetitions, `OnRemove` is called exactly for the listed components that are present |
| GameObjects.GameObject.Get | gameobject.go:65-75 | returns the first component whose tag matches, or nil iff there is none |
| GameObjects.GameObject.Clear | gameobject.go:77-82 | `OnRemove` runs on every component in order, then the list is empty |
| GameObjects.GameObject.Update | gameobject.go:20-40 | every component is updated in order before any removal; the queued components are then filtered out, order preserved, and the queue is emptied |
| Slices.DeleteFirst | gameobject.go:53-57 | removing the first occurrence shortens a list that holds the element by one, and leaves other lists as they are |
| Slices.DeleteFirstCount | gameobject.go:53-57 | removing the first occurrence takes exactly one copy out of the multiset |
| Slices.DeleteFirstDistinct | gameobject.go:53-57 | on a list without repetitions, deleting the first occurrence is filtering the element out |
| Slices.DeleteEachDistinct | gameobject.go:51-61 | on a list without repetitions, `Remove(ts...)` is filtering out ts |
| Slices.RangeSplice | gameobject.go:28-34 | the `range` loop that splices its own slice, with the backing array made explicit: on a list without repetitions it removes exactly the target and hands the body the `Scanned` sequence |
| Slices.RangeSpliceAll | level.go:124-136 | one splicing pass per queued element gives the list `RemovalPass` leaves and the concatenated scans |
| Slices.RemovalPassFilters | level.go:124-136 | the list left by the removal passes is the old list with the queued elements filtered out |
| Slices.Survivors | level.go:124-136 | the survivors have no repetitions, and an element survives iff it was present and not queued |
| Slices.ScannedShape | level.go:126-129 | a splicing pass hands its body exactly as many elements as the list had, all from the list, including the target |
| Slices.ScanSkipsSuccessor | level.go:126-131 | after the splice the loop never sees the element after the target, and sees the last element twice |
| Slices.DistinctPermutation | level.go:101-116 | a permutation of a list without repetitions has none, so the sort keeps the removal passes exact |
| Tiles.WallSides | level.go:203-220 | a side counts when that neighbour is a wall; the left or right border and the top or bottom border force the side as in the if/else-if chains |
| Tiles.WallTileByCount | level.go:222-298 | count 4 gives (32, 16), 3 gives (32, 0), 2 gives column 48 (straight iff the sides are opposite), 1 gives (16, 0), 0 gives (16, 16); the rotation is between -1 and 2 quarter turns |
| Tiles.WallTileRotates | level.go:236-298 | turning the neighbourhood a quarter turn keeps the tile and adds one quarter turn, up to the tile's symmetry |
| Tiles.FloorTile | level.go:194-202 | a floor under a wall uses srcY 0 whatever the random draw; otherwise srcY is 32 for the variant and 16 if not |
| Tiles.TileAt | level.go:311-315 | a tile goes to the background picture iff its cell is floor |
| Tiles.SolidCovers | level.go:78-83 | a pixel lies in the solid of cell (cx, cy) iff its coordinates divided by 16 are (cx, cy) |
| Tiles.SolidsDisjoint | level.go:78-83 | solids of different cells never overlap |
| Tiles.WallSolidsInside | level.go:78-83 | every wall solid lies inside the map's pixel area |
| Levels.DepthLessStrict | level.go:101-116 | the depth comparator is irreflexive, asymmetric and transitive |
| Levels.DepthLessWeakWithDepths | level.go:101-116 | among objects that all have a depth, incomparability is equality of depth and is transitive |
| Levels.DepthLessNotWeak | level.go:101-116 | with a depthless object present, incomparability is not transitive (depths 1 and 0 against a depthless object) |
| Levels.WithKindMembers | level.go:331-343 | the selection holds exactly the objects that have a component with the tag |
| Levels.SolidsOf | level.go:78-83 | one solid per selected cell, at (16x, 16y), of size 16x16, in order |
| Levels.SelectionSolids | level.go:78-83 | the solids made from the wall selection are exactly one per wall cell of the map |
| Levels.Level.constructor | level.go:34-53 | a new level has no objects, nothing queued, no solids and a zero camera offset |
| Levels.Level.Add | level.go:323-325 | the object is appended; nothing else changes |
| Levels.Level.Remove | level.go:327-329 | the object is only queued; the object list is unchanged |
| Levels.Level.InitSolids | level.go:78-83 | the wall loop appends `SolidsOf` the selected cells |
| Levels.Level.UpdateObjects | level.go:118-120 | every object of the list is updated once, in order |
| Levels.UpdateLogObjects | level.go:118-120 | the update log has one entry per object, in list order |
| Levels.Level.RemovalPass | level.go:124-138 | the list becomes the old list with the queued objects filtered out; `OnRemove` runs on every scanned object; the queue ends empty |
| Levels.RemoveHookLogEntries | level.go:126-129 | the hook log has one `OnRemove` per scanned object, in scan order |
| Levels.RemovalPassSkips | level.go:124-136 | with one queued object that has two successors, `OnRemove` is never called on its successor and is called twice on the last object |
| Levels.Level.Update | level.go:92-138 | all sorted objects are updated before any removal; objects spawned during the tick are not updated; queued and newly marked objects are filtered out; the queue ends empty |
| Levels.Level.GetGameObjectByComponent | level.go:331-343 | the result is `WithKind`: the objects having the component, in list order |
| Levels.SolidsWithinLevel | level.go:345-351 | every wall solid lies within the level's `Width()` x `Height()`, the map size times 16 |
| CameraFollow.LerpBetween | cCameraFollow.go:33-37 | with softness in [0, 1], the lerped offset lies between the old offset and the target |
| CameraFollow.Clamp | cCameraFollow.go:39-52 | on a level at least as large as the screen the offset ends in [0, level - screen]; on a smaller level it ends at level - screen (negative); an offset already in range is unchanged |
| CameraFollow.FollowApproaches | cCameraFollow.go:33-52 | with softness 0.1, an in-range offset with an in-range target moves toward the target without overshooting |
| CameraFollow.CameraFollowComponent.constructor | cCameraFollow.go:13-15 | softness starts at 0.1 |
| CameraFollow.CameraFollowComponent.OnAdd | cCameraFollow.go:17-22 | the offsets are half the game size, with integer division |
| CameraFollow.CameraFollowComponent.Update | cCameraFollow.go:25-56 | with a body, each camera offset is the clamped lerp toward the body's corner less the offset; without a body the level is unchanged; the object lists are untouched; the copy in component.go at lines 376-407 is identical |
| DepthSort.DepthSortComponent.constructor | cDepthSort.go:13-15 | depth starts at 0 and y-sorting is as asked |
| DepthSort.DepthSortComponent.Update | cDepthSort.go:21-30 | with y-sort and a body, the depth is the body's centre y, within its vertical extent; otherwise the depth is unchanged; the copy in component.go at lines 641-650 is identical |
| DepthSort.LowerDrawnLater | cDepthSort.go:26 | of two bodies of equal height, the higher one gets the smaller depth |
| Resources.Fetch | resources.go:10-21 | after a lookup the key is cached with the returned image; a hit returns the cached image and leaves the cache unchanged; a miss returns the loaded image and adds only that key; other entries are kept |
| Resources.FetchIdempotent | resources.go:12-19 | a second lookup of a path returns the same image without loading, even when the first load failed (nil) |
| Resources.FetchOthers | resources.go:14-17 | caching one path never changes what another cached path returns |
| Resources.ImageCache.constructor | resources.go:8 | the cache starts empty |
| Resources.ImageCache.GetImage | resources.go:10-21 | the image and the new cache are `Fetch` of the old cache; the loader runs only on a miss, and never twice for a path |

## Left out

- Rendering is not modelled: every `DrawImage`, `GeoM`, `ColorM` and tileset call, the debug drawing in each file, and the drawing loop of `RenderTiles`. The tile choice and layer are modelled. The draw component is modelled only through its `FlipHorizontal` flag.
- cDraw.go and cAnimation.go are not part of this model, beyond the flip flag, the current animation, the play speed and the frame.
- `Sprite.Play`: what goaseprite does when the animation changes, such as resetting the frame or the timer, is not modelled.
- main.go is not part of this model: the window, key polling, the FPS goroutine and `getPath`. Keys are an `Input` value.
- library.go and cWeapon.go entity assembly is not part of this model. `Fire` records a shot along the fire direction instead of building a bullet object. The bullet body's speed shares its backing array with the weapon's `FireDirection`; later writes to that speed (zeroing on a bump) are not reflected in the weapon, whose direction is overwritten before every shot. The zero value of Go's nil `FireDirection` is modelled as (0, 0).
- Map generation and selection come from the dngn library and are not part of this model. `Init`'s wall loop takes the selected cells as input. `IsWallSelection` states what that selection is assumed to contain.
- The random floor variant (`rand.Float32() < 0.1`) is a boolean input.
- `sort.Slice` is not modelled. `Level.Update` takes its result as a permutation of the object list.
- Levels.DepthLessNotWeak: Go's sort needs a strict weak order. The comparator is one only when every object has a depth, and the lemma shows it fails otherwise. No promise is made about the order `sort.Slice` produces in that case.
- The collision library (resolv) is a `Checker` oracle plus the `Space` record. So are `Object.Update`, `Object.Remove` (called from the body's `OnRemove`) and `Object.Center`, which is assumed to agree with `BodyComponent.Center`.
- The path-finding library (paths) is modelled by assumption. The cursor methods `Current`, `Next`, `Get`, `AtEnd`, `Advance`, `SetIndex` and `Index` are definitions in `paths.dfy`. `GetPath` is a `PathFinder` oracle. Grid cells are values compared by coordinate.
- Square roots are not computed. `Unit` and `Magnitude` come from the `VectorLib` oracle, and `UnitVectors` states what is assumed of them where a lemma needs it.
- The vector library's method forms `Add`, `Scale` and `Unit().Scale(m)` are assumed to update the stored vector in place (`ScaleTo`). `Clone().Unit()` does not touch the speed.
- PlayerControl.PlayerSpeedBound: the exact speed after the magnitude-rescaling friction is not stated, because it depends on the square root. Only the cap bound and the zero-snap are proved.
- Floating-point rounding is not modelled; `float64` values are exact reals. The camera's integer screen and level sizes, and the AI's integer cell-centre arithmetic, are exact integers.
- `OnAdd` back-pointers (`GameObject`, `Level`) are not modelled. The component under update is passed the body, sprite, draw and weapon components it would look up.
- `GameObject.OnRemove`, which `Level.Update` calls, is not defined in the code shown. It is recorded as a hook event without further effect.
- Slices.RangeSplice, GameObjects.GameObject.Update, Levels.Level.RemovalPass and Levels.Level.Update: these require the list to have no repetitions. Every object and component is created fresh before it is added. With duplicates, Go's splice can run past the shortened slice, and that case is not modelled.
- Component updates and object updates that add or remove during the loop are not modelled inside it. `Level.Update` takes the spawned and marked objects as inputs; `GameObject.Update` takes none.
- The type tags are `int` in component.go and gameobject.go and `string` in the c*.go files. All tags are modelled as `int`.
- gameobject.go defines `Add` and `Get`, while the components call `AddComponent` and `GetComponent`. The model follows gameobject.go.
- The component.go copies of the body, player friction, camera and depth sort are modelled by the same members as the c*.go files, because the code is identical. The two AI controllers differ and are modelled separately.
- LegacyAIControl.LegacyTickMonotone and LegacyAIControl.LegacyRunMonotone assume a path without repeated cells. With repeated cells, `Index` can move the cursor backward.
- The older AI never advances the cursor except through the jump. On arrival at a cell whose +3 cell is missing or blocked, it keeps steering toward the same `Next()` cell until the next replan. The model reproduces this stall rather than correcting it.
- CameraFollow.Clamp: on a level smaller than the screen, the far-edge clamp runs after the zero clamp and gives a negative offset. The model keeps the code's order.
- The camera's default softness of 0.1 is the only value set in the code. `FollowApproaches` is stated for it, and `LerpBetween` for any softness in [0, 1].
