/** The level: its game objects, the objects queued for removal at the end
    of a tick, the camera offset, the map and the solids made from its
    walls (level.go). */
module Levels {
  import opened Prelude
  import opened Slices
  import opened GameObjects
  import opened Tiles

  /** What the level does to its objects during a tick: call `Update`, and
      call `OnRemove` from the removal pass. */
  datatype LevelEvent = ObjectUpdated(g: GameObject) | ObjectRemoveHook(g: GameObject)

  function UpdateLog(gs: seq<GameObject>): seq<LevelEvent>
  {
    if gs == [] then [] else UpdateLog(gs[..|gs| - 1]) + [ObjectUpdated(gs[|gs| - 1])]
  }

  function RemoveHookLog(gs: seq<GameObject>): seq<LevelEvent>
  {
    if gs == [] then [] else RemoveHookLog(gs[..|gs| - 1]) + [ObjectRemoveHook(gs[|gs| - 1])]
  }

  /** The sort comparator: an object with a depth is before another with a
      larger depth; an object without a depth component is never before
      nor after anything. */
  predicate DepthLess(a: Option<real>, b: Option<real>)
  {
    a.Some? && b.Some? && a.value < b.value
  }

  /** The comparator is a strict order: irreflexive and transitive. */
  lemma DepthLessStrict(a: Option<real>, b: Option<real>, c: Option<real>)
    ensures !DepthLess(a, a)
    ensures DepthLess(a, b) && DepthLess(b, c) ==> DepthLess(a, c)
    ensures DepthLess(a, b) ==> !DepthLess(b, a)
  {
  }

  /** Among objects that all have a depth, "neither is before the other"
      means equal depth, which is transitive: the comparator is then a
      strict weak order, as a sort needs. */
  lemma DepthLessWeakWithDepths(a: real, b: real, c: real)
    ensures !DepthLess(Some(a), Some(b)) && !DepthLess(Some(b), Some(a)) <==> a == b
    ensures (!DepthLess(Some(a), Some(b)) && !DepthLess(Some(b), Some(a)) &&
             !DepthLess(Some(b), Some(c)) && !DepthLess(Some(c), Some(b))) ==>
      !DepthLess(Some(a), Some(c)) && !DepthLess(Some(c), Some(a))
  {
  }

  /** Once an object without a depth is in the list, "neither is before the
      other" is not transitive: an object at depth 1 and one at depth 0 are
      each unordered with a depthless object, yet ordered with each other.
      The comparator is then not a strict weak order. */
  lemma DepthLessNotWeak()
    ensures !DepthLess(Some(1.0), None) && !DepthLess(None, Some(1.0))
    ensures !DepthLess(None, Some(0.0)) && !DepthLess(Some(0.0), None)
    ensures DepthLess(Some(0.0), Some(1.0))
  {
  }

  /** The objects of `gs` that have a component with the tag, in order. */
  function WithKind(gs: seq<GameObject>, kind: int): seq<GameObject>
    reads set g | g in gs
  {
    if gs == [] then []
    else
      (if FirstOfKind(gs[0].components, kind).Some? then [gs[0]] else []) + WithKind(gs[1..], kind)
  }

  lemma WithKindStep(gs: seq<GameObject>, k: nat, kind: int)
    requires k < |gs|
    ensures WithKind(gs[k..], kind) ==
      (if FirstOfKind(gs[k].components, kind).Some? then [gs[k]] else []) + WithKind(gs[k + 1..], kind)
  {
    assert gs[k..][0] == gs[k] && gs[k..][1..] == gs[k + 1..];
  }

  /** `WithKind` keeps exactly the objects that have a component with the
      tag. */
  lemma {:induction false} WithKindMembers(gs: seq<GameObject>, kind: int)
    ensures |WithKind(gs, kind)| <= |gs|
    ensures forall g :: g in WithKind(gs, kind) ==> g in gs
    ensures forall i :: 0 <= i < |WithKind(gs, kind)| ==>
      FirstOfKind(WithKind(gs, kind)[i].components, kind).Some?
    ensures forall i :: 0 <= i < |gs| && FirstOfKind(gs[i].components, kind).Some? ==>
      gs[i] in WithKind(gs, kind)
  {
    if gs != [] {
      WithKindMembers(gs[1..], kind);
      var head := if FirstOfKind(gs[0].components, kind).Some? then [gs[0]] else [];
      assert WithKind(gs, kind) == head + WithKind(gs[1..], kind);
      forall i | 0 <= i < |gs| && FirstOfKind(gs[i].components, kind).Some?
        ensures gs[i] in WithKind(gs, kind)
      {
        if i > 0 {
          assert gs[i] == gs[1..][i - 1];
        }
      }
    }
  }

  /** The solids of a list of wall cells, in order. */
  function SolidsOf(cells: seq<(int, int)>): (r: seq<Rect>)
    ensures |r| == |cells|
    ensures forall i :: 0 <= i < |cells| ==> r[i] == SolidFor(cells[i].0, cells[i].1)
  {
    if cells == [] then [] else SolidsOf(cells[..|cells| - 1]) + [SolidFor(cells[|cells| - 1].0, cells[|cells| - 1].1)]
  }

  /** What the map's wall selection gives: exactly the wall cells of the
      map, each at least once. */
  ghost predicate IsWallSelection(room: Room, cells: seq<(int, int)>)
  {
    (forall i :: 0 <= i < |cells| ==>
      0 <= cells[i].0 < room.width && 0 <= cells[i].1 < room.height &&
      room.get(cells[i].0, cells[i].1) == Wall) &&
    (forall x, y :: 0 <= x < room.width && 0 <= y < room.height && room.get(x, y) == Wall ==>
      (x, y) in cells)
  }

  /** The solids made from a wall selection are exactly one per wall cell of
      the map. */
  lemma SelectionSolids(room: Room, cells: seq<(int, int)>)
    requires IsWallSelection(room, cells)
    ensures forall r :: r in SolidsOf(cells) <==> r in WallSolids(room)
  {
    var s := SolidsOf(cells);
    forall r | r in s
      ensures r in WallSolids(room)
    {
      var i :| 0 <= i < |s| && s[i] == r;
      assert room.get(cells[i].0, cells[i].1) == Wall;
    }
    forall r | r in WallSolids(room)
      ensures r in s
    {
      var x, y :| 0 <= x < room.width && 0 <= y < room.height && room.get(x, y) == Wall && r == SolidFor(x, y);
      assert (x, y) in cells;
      var i :| 0 <= i < |cells| && cells[i] == (x, y);
      assert s[i] == r;
    }
  }

  class Level {
    var gameObjects: seq<GameObject>
    var toRemove: seq<GameObject>
    var cameraOffsetX: real
    var cameraOffsetY: real
    const room: Room
    /** The solid objects added to the collision space, in order. */
    var solids: seq<Rect>
    /** The object hooks called so far, in order. */
    ghost var trace: seq<LevelEvent>

    /** A level over a generated map, before anything is spawned. */
    constructor (r: Room)
      ensures room == r && gameObjects == [] && toRemove == [] && solids == []
      ensures cameraOffsetX == 0.0 && cameraOffsetY == 0.0 && trace == []
    {
      room := r;
      gameObjects := [];
      toRemove := [];
      cameraOffsetX, cameraOffsetY := 0.0, 0.0;
      solids := [];
      trace := [];
    }

    /** The level's size in pixels. */
    function Width(): (w: int)
    {
      room.width * TileSize
    }

    function Height(): (h: int)
    {
      room.height * TileSize
    }

    /** `Add`: the object joins the end of the list at once. */
    method Add(g: GameObject)
      modifies this
      ensures gameObjects == old(gameObjects) + [g]
      ensures toRemove == old(toRemove) && trace == old(trace) && solids == old(solids)
      ensures cameraOffsetX == old(cameraOffsetX) && cameraOffsetY == old(cameraOffsetY)
    {
      gameObjects := gameObjects + [g];
    }

    /** `Remove`: the object is only queued; it stays in the list until the
        end of the tick. */
    method Remove(g: GameObject)
      modifies this
      ensures toRemove == old(toRemove) + [g]
      ensures gameObjects == old(gameObjects) && trace == old(trace) && solids == old(solids)
      ensures cameraOffsetX == old(cameraOffsetX) && cameraOffsetY == old(cameraOffsetY)
    {
      toRemove := toRemove + [g];
    }

    /** The wall loop of `Init`: one 16x16 solid per selected wall cell. */
    method InitSolids(cells: seq<(int, int)>)
      modifies this
      ensures solids == old(solids) + SolidsOf(cells)
      ensures gameObjects == old(gameObjects) && toRemove == old(toRemove) && trace == old(trace)
      ensures cameraOffsetX == old(cameraOffsetX) && cameraOffsetY == old(cameraOffsetY)
    {
      var k := 0;
      while k < |cells|
        invariant 0 <= k <= |cells|
        invariant solids == old(solids) + SolidsOf(cells[..k])
        invariant gameObjects == old(gameObjects) && toRemove == old(toRemove) && trace == old(trace)
        invariant cameraOffsetX == old(cameraOffsetX) && cameraOffsetY == old(cameraOffsetY)
      {
        assert cells[..k + 1][..k] == cells[..k];
        solids := solids + [SolidFor(cells[k].0, cells[k].1)];
        k := k + 1;
      }
      assert cells[..k] == cells;
    }

    /** The `Update` loop over the (sorted) objects. */
    method UpdateObjects()
      modifies this
      ensures trace == old(trace) + UpdateLog(gameObjects)
      ensures gameObjects == old(gameObjects) && toRemove == old(toRemove) && solids == old(solids)
      ensures cameraOffsetX == old(cameraOffsetX) && cameraOffsetY == old(cameraOffsetY)
    {
      var k := 0;
      while k < |gameObjects|
        invariant 0 <= k <= |gameObjects|
        invariant trace == old(trace) + UpdateLog(gameObjects[..k])
        invariant gameObjects == old(gameObjects) && toRemove == old(toRemove) && solids == old(solids)
        invariant cameraOffsetX == old(cameraOffsetX) && cameraOffsetY == old(cameraOffsetY)
      {
        assert gameObjects[..k + 1][..k] == gameObjects[..k];
        trace := trace + [ObjectUpdated(gameObjects[k])];
        k := k + 1;
      }
      assert gameObjects[..k] == gameObjects;
    }

    /** The removal pass: for each queued object a `range` over the list
        that calls `OnRemove` on every object it visits and splices out the
        queued one; then the queue is emptied. */
    method RemovalPass()
      requires Distinct(gameObjects)
      modifies this
      ensures gameObjects == FilterOut(old(gameObjects), old(toRemove))
      ensures trace == old(trace) + RemoveHookLog(Slices.RemovalPass(old(gameObjects), old(toRemove)).1)
      ensures toRemove == [] && solids == old(solids)
      ensures cameraOffsetX == old(cameraOffsetX) && cameraOffsetY == old(cameraOffsetY)
    {
      var rest, scanned := RangeSpliceAll(gameObjects, toRemove);
      RemovalPassFilters(gameObjects, toRemove);
      var k := 0;
      while k < |scanned|
        invariant 0 <= k <= |scanned|
        invariant trace == old(trace) + RemoveHookLog(scanned[..k])
        invariant gameObjects == old(gameObjects) && toRemove == old(toRemove) && solids == old(solids)
        invariant cameraOffsetX == old(cameraOffsetX) && cameraOffsetY == old(cameraOffsetY)
      {
        assert scanned[..k + 1][..k] == scanned[..k];
        trace := trace + [ObjectRemoveHook(scanned[k])];
        k := k + 1;
      }
      assert scanned[..k] == scanned;
      gameObjects := rest;
      toRemove := [];
    }

    /** One tick of the level's object list.  `order` is the list as the
        depth sort leaves it (a permutation of it); `spawned` and `marked`
        are the objects that the objects' updates passed to `Add` and
        `Remove`.  Every object of the sorted list is updated before any
        removal; spawned objects wait for the next tick; the removal pass
        then takes out everything queued. */
    method Update(order: seq<GameObject>, spawned: seq<GameObject>, marked: seq<GameObject>)
      requires multiset(order) == multiset(gameObjects)
      requires Distinct(order + spawned)
      modifies this
      ensures gameObjects == FilterOut(order + spawned, old(toRemove) + marked)
      ensures trace == old(trace) + UpdateLog(order) +
        RemoveHookLog(Slices.RemovalPass(order + spawned, old(toRemove) + marked).1)
      ensures toRemove == [] && solids == old(solids)
      ensures cameraOffsetX == old(cameraOffsetX) && cameraOffsetY == old(cameraOffsetY)
    {
      gameObjects := order;
      UpdateObjects();
      gameObjects := gameObjects + spawned;
      toRemove := toRemove + marked;
      RemovalPass();
    }

    /** `GetGameObjectByComponent`: the objects having a component with
        the tag, in list order. */
    method GetGameObjectByComponent(kind: int) returns (r: seq<GameObject>)
      ensures r == WithKind(gameObjects, kind)
    {
      var gs := gameObjects;
      ghost var all := WithKind(gs, kind);
      r := [];
      var k := 0;
      assert gs[k..] == gs && [] + all == all;
      while k < |gs|
        invariant 0 <= k <= |gs|
        invariant all == r + WithKind(gs[k..], kind)
      {
        WithKindStep(gs, k, kind);
        ghost var tail := WithKind(gs[k + 1..], kind);
        var c := gs[k].Get(kind);
        if c != null {
          AppendAssoc(r, [gs[k]], tail);
          r := r + [gs[k]];
        } else {
          assert [] + tail == tail;
        }
        k := k + 1;
      }
      assert gs[k..] == [] && r + [] == r;
    }
  }

  /** Every wall solid lies inside the level's pixel area. */
  lemma SolidsWithinLevel(level: Level, r: Rect)
    requires r in WallSolids(level.room)
    ensures 0 <= r.x && r.x + r.w <= level.Width()
    ensures 0 <= r.y && r.y + r.h <= level.Height()
  {
    WallSolidsInside(level.room, r);
  }

  /** Objects updated in a tick are exactly the sorted ones: the spawned
      objects are not updated until the next tick. */
  lemma UpdateLogObjects(gs: seq<GameObject>)
    ensures |UpdateLog(gs)| == |gs|
    ensures forall i :: 0 <= i < |gs| ==> UpdateLog(gs)[i] == ObjectUpdated(gs[i])
  {
    if gs != [] {
      UpdateLogObjects(gs[..|gs| - 1]);
    }
  }

  /** With one queued object that is not the last and whose successor
      exists, the removal pass never calls `OnRemove` on that successor,
      and calls it twice on the last object. */
  lemma RemovalPassSkips(gs: seq<GameObject>, p: nat)
    requires Distinct(gs) && p + 2 < |gs|
    ensures var hooks := RemoveHookLog(Slices.RemovalPass(gs, [gs[p]]).1);
      |hooks| == |gs| && ObjectRemoveHook(gs[p + 1]) !in hooks &&
      hooks[|gs| - 2] == ObjectRemoveHook(gs[|gs| - 1]) && hooks[|gs| - 1] == ObjectRemoveHook(gs[|gs| - 1])
  {
    var scanned := Slices.RemovalPass(gs, [gs[p]]).1;
    assert [gs[p]][1..] == [];
    assert Slices.RemovalPass(FilterOut(gs, [gs[p]]), []).1 == [];
    assert scanned == Scanned(gs, gs[p]) + [];
    assert scanned == Scanned(gs, gs[p]);
    ScanSkipsSuccessor(gs, p);
    ScannedShape(gs, gs[p]);
    RemoveHookLogEntries(scanned);
    assert ObjectRemoveHook(gs[p + 1]) in RemoveHookLog(scanned) <==> gs[p + 1] in scanned;
  }

  lemma RemoveHookLogEntries(gs: seq<GameObject>)
    ensures |RemoveHookLog(gs)| == |gs|
    ensures forall i :: 0 <= i < |gs| ==> RemoveHookLog(gs)[i] == ObjectRemoveHook(gs[i])
  {
    if gs != [] {
      RemoveHookLogEntries(gs[..|gs| - 1]);
    }
  }
}
