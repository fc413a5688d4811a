/** The path-finding and collision-space services the AI relies on.  Their
    code is not part of this model; what the AI needs of them is written
    down here as explicit definitions (for the path cursor) and as function
    values (for the searches and the space queries). */
module Paths {
  import opened Prelude
  import opened Slices

  /** A grid cell.  The grid hands out one cell object per coordinate, so
      comparing cell pointers is comparing coordinates. */
  datatype Cell = Cell(x: int, y: int)

  /** A path: the cells from start to goal and a cursor into them. */
  datatype Path = Path(cells: seq<Cell>, index: int)

  /** The cursor is inside the path, or at 0 on an empty one. */
  predicate ValidPath(p: Path)
  {
    0 <= p.index && (p.index < |p.cells| || (|p.cells| == 0 && p.index == 0))
  }

  /** `Current()`: the cell under the cursor, nil outside the path. */
  function Current(p: Path): (c: Option<Cell>)
    ensures c.Some? <==> 0 <= p.index < |p.cells|
    ensures c.Some? ==> c.value == p.cells[p.index]
  {
    if 0 <= p.index < |p.cells| then Some(p.cells[p.index]) else None
  }

  /** `Get(i)`: the `i`-th cell, nil outside the path. */
  function Get(p: Path, i: int): (c: Option<Cell>)
    ensures c.Some? <==> 0 <= i < |p.cells|
    ensures c.Some? ==> c.value == p.cells[i]
  {
    if 0 <= i < |p.cells| then Some(p.cells[i]) else None
  }

  /** `Next()`: the cell after the cursor, nil at the end. */
  function Next(p: Path): (c: Option<Cell>)
    ensures c == Get(p, p.index + 1)
  {
    Get(p, p.index + 1)
  }

  /** `AtEnd()`: the cursor is on (or past) the last cell. */
  predicate AtEnd(p: Path)
  {
    p.index >= |p.cells| - 1
  }

  /** `SetIndex(i)`: moves the cursor to `i`, clamped into the path. */
  function SetIndex(p: Path, i: int): (r: Path)
    requires |p.cells| > 0
    ensures r.cells == p.cells && ValidPath(r)
    ensures 0 <= i < |p.cells| ==> r.index == i
  {
    p.(index := if i < 0 then 0 else if i >= |p.cells| then |p.cells| - 1 else i)
  }

  /** `Advance()`: moves the cursor one cell forward, staying on the last
      cell at the end. */
  function Advance(p: Path): (r: Path)
    requires ValidPath(p) && |p.cells| > 0
    ensures r.cells == p.cells && ValidPath(r)
    ensures !AtEnd(p) ==> r.index == p.index + 1
    ensures AtEnd(p) ==> r.index == p.index
  {
    SetIndex(p, p.index + 1)
  }

  /** `Index(c)`: the position of the first cell equal to `c`, or -1. */
  function Index(p: Path, c: Cell): (i: int)
    ensures -1 <= i < |p.cells|
    ensures i == -1 <==> c !in p.cells
    ensures 0 <= i ==> p.cells[i] == c && c !in p.cells[..i]
  {
    IndexFrom(p.cells, c, 0)
  }

  function IndexFrom(cells: seq<Cell>, c: Cell, k: nat): (i: int)
    requires k <= |cells| && c !in cells[..k]
    ensures -1 <= i < |cells|
    ensures i == -1 <==> c !in cells
    ensures 0 <= i ==> k <= i && cells[i] == c && c !in cells[..i]
    decreases |cells| - k
  {
    if k == |cells| then
      assert cells[..k] == cells;
      -1
    else if cells[k] == c then k
    else
      assert cells[..k + 1] == cells[..k] + [cells[k]];
      IndexFrom(cells, c, k + 1)
  }

  /** The path-finding grid's `GetPath(fromX, fromY, toX, toY, diagonals)`:
      the cells of a path between two world positions, or nil. */
  type PathFinder = (real, real, real, real, bool) -> Option<seq<Cell>>

  /** A fresh path from the path finder starts at its first cell. */
  function NewPath(cells: Option<seq<Cell>>): (p: Option<Path>)
    ensures p.Some? <==> cells.Some?
    ensures p.Some? ==> p.value.cells == cells.value && p.value.index == 0 && ValidPath(p.value)
  {
    match cells
    case None => None
    case Some(cs) => Some(Path(cs, 0))
  }

  /** A cell of the collision space and the tags of what occupies it. */
  datatype SpaceCell = SpaceCell(x: int, y: int, tags: set<string>)

  predicate ContainsSolid(c: SpaceCell)
  {
    "solid" in c.tags
  }

  /** The collision space as the AI sees it: the cell size, the cells on
      the line between two cells (`CellsInLine`), the cell at a cell
      coordinate (`Cell`, nil outside the space), and the cell coordinate
      of a world position (`WorldToSpace`). */
  datatype Space = Space(
    cellWidth: int, cellHeight: int,
    cellsInLine: (int, int, int, int) -> seq<SpaceCell>,
    cellAt: (int, int) -> Option<SpaceCell>,
    worldToSpace: (real, real) -> (int, int))

  /** The path-finding grid's cell size and its `GridToWorld` conversion. */
  datatype Grid = Grid(
    cellWidth: int, cellHeight: int,
    gridToWorld: (int, int) -> (real, real))

  /** In a path without repeated cells, `Index` finds back the cell that
      `Get` returned. */
  lemma IndexOfGet(p: Path, i: int)
    requires 0 <= i < |p.cells|
    requires Distinct(p.cells)
    ensures Index(p, p.cells[i]) == i
  {
  }
}
