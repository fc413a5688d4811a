/** The map's tiles: how a wall cell picks its tile from its neighbours,
    how a floor cell picks its variant, and the 16x16 solid that each wall
    cell becomes (the tile classification inside `RenderTiles` and the
    solid loop in `Init`, level.go). */
module Tiles {

  const Floor: char := ' '
  const Wall: char := 'x'

  /** Tiles and solids are 16 pixels square. */
  const TileSize: int := 16

  /** The generated map: its size and the rune at each coordinate.  Nothing
      is assumed about the rune reported for coordinates outside the map. */
  datatype Room = Room(width: int, height: int, get: (int, int) -> char)

  /** Which sides of a wall cell count as wall. */
  datatype Sides = Sides(left: bool, right: bool, up: bool, down: bool)

  /** A tile: the top-left corner of its source square in the tileset and
      its rotation in quarter turns (1 is a quarter turn clockwise on the
      screen, -1 a quarter turn back). */
  datatype Tile = Tile(srcX: int, srcY: int, turns: int)

  /** The wall neighbours of cell `(x, y)`: a side counts when the cell
      there is a wall, and the left (else the right) side on a vertical
      border and the top (else the bottom) side on a horizontal border
      count regardless. */
  function WallSides(room: Room, x: int, y: int): (n: Sides)
    ensures x == 0 ==> n.left
    ensures y == 0 ==> n.up
    ensures x != 0 && x == room.width - 1 ==> n.right
    ensures y != 0 && y == room.height - 1 ==> n.down
    ensures 0 < x < room.width - 1 ==>
      n.left == (room.get(x - 1, y) == Wall) && n.right == (room.get(x + 1, y) == Wall)
    ensures 0 < y < room.height - 1 ==>
      n.up == (room.get(x, y - 1) == Wall) && n.down == (room.get(x, y + 1) == Wall)
  {
    var left := room.get(x - 1, y) == Wall;
    var right := room.get(x + 1, y) == Wall;
    var up := room.get(x, y - 1) == Wall;
    var down := room.get(x, y + 1) == Wall;
    Sides(
      if x == 0 then true else left,
      if x != 0 && x == room.width - 1 then true else right,
      if y == 0 then true else up,
      if y != 0 && y == room.height - 1 then true else down)
  }

  function B(b: bool): int
  {
    if b then 1 else 0
  }

  function Count(n: Sides): int
  {
    B(n.left) + B(n.right) + B(n.up) + B(n.down)
  }

  /** The wall tile for a set of wall sides. */
  function WallTile(n: Sides): Tile
  {
    var num := Count(n);
    if num == 4 then Tile(32, 16, 0)
    else if num == 3 then
      Tile(32, 0, if !n.right then 1 else if !n.down then 2 else if !n.left then -1 else 0)
    else if num == 2 then
      if n.right && n.left then Tile(48, 16, 1)
      else if n.up && n.down then Tile(48, 16, 0)
      else if n.down && n.left then Tile(48, 0, 0)
      else if n.up && n.left then Tile(48, 0, 1)
      else if n.up && n.right then Tile(48, 0, 2)
      else Tile(48, 0, -1)
    else if num == 1 then
      Tile(16, 0, if n.down then 1 else if n.left then 2 else if n.up then -1 else 0)
    else Tile(16, 16, 0)
  }

  /** The sides after a quarter turn clockwise on the screen: what was on
      the left is now on top, and so on around. */
  function RotateCW(n: Sides): (r: Sides)
    ensures Count(r) == Count(n)
  {
    Sides(n.down, n.up, n.left, n.right)
  }

  /** How many quarter turns leave a tile's picture unchanged: the full
      and empty tiles look the same every way, the straight piece every
      half turn, the others only after a full turn. */
  function Period(t: Tile): int
  {
    if t.srcY == 16 && t.srcX != 48 then 1
    else if t.srcX == 48 && t.srcY == 16 then 2
    else 4
  }

  /** The wall tiles are consistent under rotation: turning the
      neighbourhood a quarter turn clockwise keeps the source square and
      adds one quarter turn, up to the tile's symmetry.  So the table is
      four base tiles, each drawn at the rotation its neighbourhood
      calls for. */
  lemma WallTileRotates(n: Sides)
    ensures WallTile(RotateCW(n)).srcX == WallTile(n).srcX
    ensures WallTile(RotateCW(n)).srcY == WallTile(n).srcY
    ensures (WallTile(RotateCW(n)).turns - WallTile(n).turns - 1) % Period(WallTile(n)) == 0
  {
  }

  /** The source square depends only on the number of wall sides (and,
      for two sides, on whether they are opposite): 4 gives (32, 16), 3
      gives (32, 0), 1 gives (16, 0) and none gives (16, 16). */
  lemma WallTileByCount(n: Sides)
    ensures Count(n) == 4 ==> WallTile(n) == Tile(32, 16, 0)
    ensures Count(n) == 3 ==> WallTile(n).srcX == 32 && WallTile(n).srcY == 0
    ensures Count(n) == 2 ==>
      WallTile(n).srcX == 48 &&
      (WallTile(n).srcY == 16 <==> (n.left && n.right) || (n.up && n.down))
    ensures Count(n) == 1 ==> WallTile(n).srcX == 16 && WallTile(n).srcY == 0
    ensures Count(n) == 0 ==> WallTile(n) == Tile(16, 16, 0)
    ensures -1 <= WallTile(n).turns <= 2
  {
  }

  /** The floor tile: the plain tile, or the variant at (0, 32) when
      `variant` (the 10% random draw) holds, or the shadowed tile at (0, 0)
      under a wall. */
  function FloorTile(room: Room, x: int, y: int, variant: bool): (t: Tile)
    ensures t.srcX == 0 && t.turns == 0
    ensures room.get(x, y - 1) == Wall ==> t.srcY == 0
    ensures room.get(x, y - 1) != Wall ==> t.srcY == (if variant then 32 else 16)
  {
    var srcY := if variant then 32 else 16;
    Tile(0, if room.get(x, y - 1) == Wall then 0 else srcY, 0)
  }

  /** Which picture a tile goes to: floors under the objects, everything
      else over them. */
  datatype Layer = Background | Foreground

  /** The tile and the layer of cell `(x, y)`; a cell that is neither floor
      nor wall gets the tileset's top-left square, unrotated. */
  function TileAt(room: Room, x: int, y: int, variant: bool): (r: (Tile, Layer))
    ensures r.1 == Background <==> room.get(x, y) == Floor
  {
    var v := room.get(x, y);
    if v == Floor then (FloorTile(room, x, y, variant), Background)
    else if v == Wall then (WallTile(WallSides(room, x, y)), Foreground)
    else (Tile(0, 0, 0), Foreground)
  }

  /** An axis-aligned rectangle in world pixels. */
  datatype Rect = Rect(x: int, y: int, w: int, h: int)

  /** The solid for the wall cell `(cx, cy)`. */
  function SolidFor(cx: int, cy: int): Rect
  {
    Rect(cx * TileSize, cy * TileSize, TileSize, TileSize)
  }

  predicate Inside(r: Rect, px: int, py: int)
  {
    r.x <= px < r.x + r.w && r.y <= py < r.y + r.h
  }

  /** Every pixel lies in the solid of exactly one cell: the one its
      coordinates divided by 16 name. */
  lemma SolidCovers(cx: int, cy: int, px: int, py: int)
    ensures Inside(SolidFor(cx, cy), px, py) <==> px / TileSize == cx && py / TileSize == cy
  {
    DivBetween(px, cx);
    DivBetween(py, cy);
  }

  lemma DivBetween(p: int, c: int)
    ensures c * 16 <= p < c * 16 + 16 <==> p / 16 == c
  {
    assert p == p / 16 * 16 + p % 16 && 0 <= p % 16 < 16;
  }

  /** Solids of different cells do not overlap. */
  lemma SolidsDisjoint(cx: int, cy: int, dx: int, dy: int, px: int, py: int)
    requires (cx, cy) != (dx, dy)
    ensures !(Inside(SolidFor(cx, cy), px, py) && Inside(SolidFor(dx, dy), px, py))
  {
    SolidCovers(cx, cy, px, py);
    SolidCovers(dx, dy, px, py);
  }

  /** The solids of all wall cells of the map. */
  ghost function WallSolids(room: Room): set<Rect>
  {
    set x, y | 0 <= x < room.width && 0 <= y < room.height && room.get(x, y) == Wall :: SolidFor(x, y)
  }

  /** Every wall solid lies inside the map's pixel area. */
  lemma WallSolidsInside(room: Room, r: Rect)
    requires r in WallSolids(room)
    ensures 0 <= r.x && r.x + r.w <= room.width * TileSize
    ensures 0 <= r.y && r.y + r.h <= room.height * TileSize
  {
    var x, y :| 0 <= x < room.width && 0 <= y < room.height && room.get(x, y) == Wall && r == SolidFor(x, y);
    assert (x + 1) * 16 <= room.width * 16;
    assert (y + 1) * 16 <= room.height * 16;
  }
}
