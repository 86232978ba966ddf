/** The world map: a 16 x 16 grid of wall ('#') and empty ('.') cells stored
    as one flat string, as in CommandLineRayCaster.cpp:115-131. */
module World {
  import opened Config
  import opened Numeric

  /** A map string of exactly `MapWidth * MapHeight` cells. */
  type Grid = m: seq<char> | |m| == MapWidth * MapHeight witness seq(MapWidth * MapHeight, _ => '#')

  /** The rows of the map literal, top to bottom. */
  const MapRows: seq<string> := [
    "################",
    "#..............#",
    "#.......########",
    "#..............#",
    "#......##......#",
    "#......##......#",
    "#..............#",
    "###............#",
    "##.............#",
    "#......####..###",
    "#......#.......#",
    "#......#.......#",
    "#..............#",
    "#......#########",
    "#..............#",
    "################"]

  /** The map string: the rows appended one after another. */
  const WorldMap: Grid := seq(MapWidth * MapHeight, i requires 0 <= i < MapWidth * MapHeight => MapRows[i / MapWidth][i % MapWidth])

  /** The bounds test the ray march applies to a sampled cell. */
  predicate InBounds(cx: int, cy: int)
  {
    0 <= cx < MapWidth && 0 <= cy < MapHeight
  }

  /** The flat index the ray march and the collision test use for cell
      `(cx, cy)`: `cx * MapWidth + cy`. Every in-bounds cell has its own
      index inside the map string. */
  function CellIndex(cx: int, cy: int): (i: nat)
    requires InBounds(cx, cy)
    ensures i < MapWidth * MapHeight
  {
    cx * MapWidth + cy
  }

  /** Distinct in-bounds cells have distinct indices. */
  lemma CellIndexInjective(cx: int, cy: int, dx: int, dy: int)
    requires InBounds(cx, cy) && InBounds(dx, dy)
    requires CellIndex(cx, cy) == CellIndex(dx, dy)
    ensures cx == dx && cy == dy
  {
  }

  /** Whether a real position is blocked: outside the grid, or on a '#'
      cell. Outside the grid counts as wall, so the test fails closed. */
  predicate IsWall(grid: Grid, x: real, y: real)
    ensures !InBounds(Trunc(x), Trunc(y)) ==> IsWall(grid, x, y)
    ensures InBounds(Trunc(x), Trunc(y)) ==> (IsWall(grid, x, y) <==> grid[CellIndex(Trunc(x), Trunc(y))] == '#')
    ensures x <= -1.0 || MapHeight as real <= x || y <= -1.0 || MapWidth as real <= y ==> IsWall(grid, x, y)
  {
    TruncInRange(x, MapHeight);
    TruncInRange(y, MapWidth);
    var cx, cy := Trunc(x), Trunc(y);
    !InBounds(cx, cy) || grid[CellIndex(cx, cy)] == '#'
  }

  /** Cell `(r, c)` of the map string is character `c` of row `r`. */
  lemma WorldMapCell(r: int, c: int)
    requires InBounds(r, c)
    ensures WorldMap[CellIndex(r, c)] == MapRows[r][c]
  {
    var i := CellIndex(r, c);
    assert i == r * 16 + c;
    assert i / 16 == r && i % 16 == c;
  }

  /** Every row of the map literal starts and ends with '#'; the first and
      last rows are '#' throughout. */
  lemma MapRowsRing(i: int)
    requires 0 <= i < MapWidth
    ensures MapRows[0][i] == '#' && MapRows[MapHeight - 1][i] == '#'
    ensures MapRows[i][0] == '#' && MapRows[i][MapWidth - 1] == '#'
  {
    assert MapRows[0] == MapRows[MapHeight - 1] == "################";
  }

  /** Every cell of the outer ring of the map literal is a wall. */
  lemma OuterRingIsWall(i: int)
    requires 0 <= i < MapWidth
    ensures WorldMap[CellIndex(0, i)] == '#' && WorldMap[CellIndex(MapHeight - 1, i)] == '#'
    ensures WorldMap[CellIndex(i, 0)] == '#' && WorldMap[CellIndex(i, MapWidth - 1)] == '#'
  {
    MapRowsRing(i);
    WorldMapCell(0, i);
    WorldMapCell(MapHeight - 1, i);
    WorldMapCell(i, 0);
    WorldMapCell(i, MapWidth - 1);
  }

  /** On the program's own map, every real position outside the square
      `[0, 16) x [0, 16)` is blocked. A coordinate in `(-1, 0)` truncates
      to cell 0, which is on the outer ring of walls. */
  lemma WorldMapFailsClosed(x: real, y: real)
    requires !(0.0 <= x < MapHeight as real && 0.0 <= y < MapWidth as real)
    ensures IsWall(WorldMap, x, y)
  {
    TruncInRange(x, MapHeight);
    TruncInRange(y, MapWidth);
    var cx, cy := Trunc(x), Trunc(y);
    if InBounds(cx, cy) {
      if x < 0.0 {
        assert cx == 0;
        OuterRingIsWall(cy);
      } else if x >= MapHeight as real {
        assert false;
      } else if y < 0.0 {
        assert cy == 0;
        OuterRingIsWall(cx);
      }
    }
  }

  /** The player's start position is on an empty cell. */
  lemma StartIsOpen()
    ensures !IsWall(WorldMap, StartX, StartY)
  {
  }
}
