/** Frame composition (CommandLineRayCaster.cpp:212-356): each column of the
    flat `screen` buffer is filled from its ray, then the map inset, the
    player marker and the terminating '\0' are written over it. */
module Composer {
  import opened Config
  import opened Numeric
  import opened World
  import opened RayCaster
  import opened Projection
  import opened Observer

  /** The buffer index of column `x`, row `y`: `y * ScreenWidth + x`. It
      lies inside the buffer and gives back its column and row. */
  function Pixel(x: int, y: int): (i: nat)
    requires 0 <= x < ScreenWidth && 0 <= y < ScreenHeight
    ensures i < ScreenWidth * ScreenHeight
    ensures i % ScreenWidth == x && i / ScreenWidth == y
  {
    y * ScreenWidth + x
  }

  /** Every buffer index is the pixel of its own column and row. */
  lemma PixelOf(i: int)
    requires 0 <= i < ScreenWidth * ScreenHeight
    ensures 0 <= i % ScreenWidth < ScreenWidth && 0 <= i / ScreenWidth < ScreenHeight
    ensures i == Pixel(i % ScreenWidth, i / ScreenWidth)
  {
  }

  /** What row `y` of a column shows: ceiling (blank) up to and including
      `ceiling`, the wall glyph up to and including `floor`, the floor
      glyph below. */
  function ColumnGlyph(y: int, ceiling: int, floor: int, shade: char): (g: char)
    ensures y <= ceiling ==> g == ' '
    ensures ceiling < y <= floor ==> g == shade
    ensures ceiling < y && floor < y ==> g == FloorShade(y)
  {
    if y <= ceiling then ' '
    else if y <= floor then shade
    else FloorShade(y)
  }

  /** Writes column `x` of the buffer row by row, touching nothing else. */
  method FillColumn(screen: array<char>, x: int, ceiling: int, floor: int, shade: char)
    requires screen.Length == ScreenWidth * ScreenHeight
    requires 0 <= x < ScreenWidth
    modifies screen
    ensures forall y :: 0 <= y < ScreenHeight ==> screen[Pixel(x, y)] == ColumnGlyph(y, ceiling, floor, shade)
    ensures forall i :: 0 <= i < screen.Length && i % ScreenWidth != x ==> screen[i] == old(screen[i])
  {
    for y := 0 to ScreenHeight
      invariant forall y' :: 0 <= y' < y ==> screen[Pixel(x, y')] == ColumnGlyph(y', ceiling, floor, shade)
      invariant forall i :: 0 <= i < screen.Length && i % ScreenWidth != x ==> screen[i] == old(screen[i])
    {
      if y <= ceiling {
        screen[Pixel(x, y)] := ' ';
      } else if y > ceiling && y <= floor {
        screen[Pixel(x, y)] := shade;
      } else {
        screen[Pixel(x, y)] := FloorShade(y);
      }
    }
  }

  /** The boundary flag a column may carry for its ray: false unless the
      ray hit a wall tile, and then the test on the three nearest corners
      of some ascending order of the tile's four corners. */
  ghost predicate BoundaryFits(ray: Ray, boundary: bool, px: real, py: real, eyeX: real, eyeY: real, maths: Maths)
  {
    if ray.hit.Wall? then
      exists s :: IsSortedPermutation(s, CornerRays(ray.hit.cx, ray.hit.cy, px, py, eyeX, eyeY, maths.sqrt))
        && |s| == 4 && boundary == NearCornerAligned(s, maths.acos)
    else !boundary
  }

  /** Column `x` of buffer `s` shows the ray cast for that column from
      `(px, py)` at heading `pa`. */
  ghost predicate ColumnShows(s: seq<char>, x: int, grid: Grid, px: real, py: real, pa: real, maths: Maths, boundary: bool)
    requires |s| == ScreenWidth * ScreenHeight && 0 <= x < ScreenWidth
  {
    var eyeX, eyeY := maths.sin(RayAngle(pa, x)), maths.cos(RayAngle(pa, x));
    var ray := Cast(grid, px, py, eyeX, eyeY);
    && 0.0 < ray.dist
    && BoundaryFits(ray, boundary, px, py, eyeX, eyeY, maths)
    && forall y :: 0 <= y < ScreenHeight ==>
         s[Pixel(x, y)] == ColumnGlyph(y, CeilingRow(ray.dist), FloorRow(ray.dist), WallShade(ray.dist, boundary))
  }

  /** Whatever the ray hits, rows 18 to 23 of a rendered column show the
      wall glyph: every distance the march reports keeps the ceiling row at
      17 or above and the floor row at 23 or below. */
  lemma WallBandAlwaysShown(s: seq<char>, x: int, grid: Grid, px: real, py: real, pa: real, maths: Maths, boundary: bool, y: int)
    requires |s| == ScreenWidth * ScreenHeight && 0 <= x < ScreenWidth
    requires ColumnShows(s, x, grid, px, py, pa, maths, boundary) && 18 <= y <= 23
    ensures s[Pixel(x, y)] == WallShade(Cast(grid, px, py, maths.sin(RayAngle(pa, x)), maths.cos(RayAngle(pa, x))).dist, boundary)
  {
    var ray := Cast(grid, px, py, maths.sin(RayAngle(pa, x)), maths.cos(RayAngle(pa, x)));
    CastBounds(grid, px, py, maths.sin(RayAngle(pa, x)), maths.cos(RayAngle(pa, x)));
    CeilingRowWithinDepth(ray.dist);
  }

  /** A column keeps showing its ray while other columns are written. */
  lemma ColumnShowsFramed(s: seq<char>, s': seq<char>, x: int, x': int, grid: Grid, px: real, py: real, pa: real, maths: Maths, boundary: bool)
    requires |s| == |s'| == ScreenWidth * ScreenHeight
    requires 0 <= x < ScreenWidth && 0 <= x' < ScreenWidth && x != x'
    requires forall i :: 0 <= i < |s| && i % ScreenWidth != x ==> s'[i] == s[i]
    requires ColumnShows(s, x', grid, px, py, pa, maths, boundary)
    ensures ColumnShows(s', x', grid, px, py, pa, maths, boundary)
  {
  }

  /** The body of the column loop (CommandLineRayCaster.cpp:215-338): the
      ray angle, the eye vector, the march, the projection and the fill of
      column `x`. */
  method RenderColumn(screen: array<char>, x: int, grid: Grid, px: real, py: real, pa: real, maths: Maths)
    returns (dist: real, boundary: bool)
    requires screen.Length == ScreenWidth * ScreenHeight
    requires 0 <= x < ScreenWidth
    modifies screen
    ensures ColumnShows(screen[..], x, grid, px, py, pa, maths, boundary)
    ensures forall i :: 0 <= i < screen.Length && i % ScreenWidth != x ==> screen[i] == old(screen[i])
  {
    var rayAngle := RayAngle(pa, x);
    var eyeX, eyeY := maths.sin(rayAngle), maths.cos(rayAngle);
    var hitWall;
    ghost var ray, sorted;
    dist, hitWall, boundary, ray, sorted := March(grid, px, py, eyeX, eyeY, maths);
    var ceiling := CeilingRow(dist);
    var floor := FloorRow(dist);
    var shade := WallShade(dist, boundary);
    FillColumn(screen, x, ceiling, floor, shade);
    assert ray.hit.Wall? ==> IsSortedPermutation(sorted, CornerRays(ray.hit.cx, ray.hit.cy, px, py, eyeX, eyeY, maths.sqrt));
  }

  /** The column loop: one ray per column, left to right. */
  method RenderView(screen: array<char>, grid: Grid, px: real, py: real, pa: real, maths: Maths)
    returns (ghost boundaries: seq<bool>)
    requires screen.Length == ScreenWidth * ScreenHeight
    modifies screen
    ensures |boundaries| == ScreenWidth
    ensures forall x :: 0 <= x < ScreenWidth ==> ColumnShows(screen[..], x, grid, px, py, pa, maths, boundaries[x])
  {
    boundaries := [];
    for x := 0 to ScreenWidth
      invariant |boundaries| == x
      invariant forall x' :: 0 <= x' < x ==> ColumnShows(screen[..], x', grid, px, py, pa, maths, boundaries[x'])
    {
      ghost var before := screen[..];
      var dist, boundary := RenderColumn(screen, x, grid, px, py, pa, maths);
      ghost var extended := boundaries + [boundary];
      forall x' | 0 <= x' <= x
        ensures ColumnShows(screen[..], x', grid, px, py, pa, maths, extended[x'])
      {
        if x' < x {
          assert extended[x'] == boundaries[x'];
          ColumnShowsFramed(before, screen[..], x, x', grid, px, py, pa, maths, boundaries[x']);
        }
      }
      boundaries := extended;
    }
  }

  /** Nothing of the previous frame survives the column loop: two buffers
      in which every column shows the same rays are equal. */
  lemma ViewDeterminedByColumns(v1: seq<char>, v2: seq<char>, grid: Grid, px: real, py: real, pa: real, maths: Maths, boundaries: seq<bool>)
    requires |v1| == |v2| == ScreenWidth * ScreenHeight && |boundaries| == ScreenWidth
    requires forall x :: 0 <= x < ScreenWidth ==> ColumnShows(v1, x, grid, px, py, pa, maths, boundaries[x])
    requires forall x :: 0 <= x < ScreenWidth ==> ColumnShows(v2, x, grid, px, py, pa, maths, boundaries[x])
    ensures v1 == v2
  {
    forall i | 0 <= i < |v1|
      ensures v1[i] == v2[i]
    {
      PixelOf(i);
      var x, y := i % ScreenWidth, i / ScreenWidth;
      assert ColumnShows(v1, x, grid, px, py, pa, maths, boundaries[x]);
      assert ColumnShows(v2, x, grid, px, py, pa, maths, boundaries[x]);
    }
  }

  /** The buffer index of the player marker as written:
      `((int)x + 1) * ScreenWidth + (int)y`. */
  function MarkIndex(px: real, py: real): (m: int)
    ensures 0 <= Trunc(py) < ScreenWidth ==> m / ScreenWidth == Trunc(px) + 1 && m % ScreenWidth == Trunc(py)
  {
    (Trunc(px) + 1) * ScreenWidth + Trunc(py)
  }

  /** The buffer cells the map inset covers: rows 1 to 16, columns 0 to
      15 (both loops of the source run to `MapWidth`). */
  predicate InInset(i: int)
  {
    1 <= i / ScreenWidth <= MapWidth && 0 <= i % ScreenWidth < MapWidth
  }

  /** The map character the inset puts at buffer index `i`:
      `map[ny * MapWidth + nx]` for row `ny + 1`, column `nx`. */
  function InsetCell(grid: Grid, i: int): char
    requires InInset(i)
  {
    grid[CellIndex(i / ScreenWidth - 1, i % ScreenWidth)]
  }

  /** The buffer after the overlay: the inset over the view, the marker
      over the inset, and '\0' in the last cell. */
  function Overlaid(s: seq<char>, grid: Grid, mark: int): (r: seq<char>)
    requires 0 <= mark < |s|
    ensures |r| == |s| && r[|s| - 1] == '\0'
    ensures mark < |s| - 1 ==> r[mark] == 'P'
  {
    seq(|s|, i requires 0 <= i < |s| =>
      if i == |s| - 1 then '\0'
      else if i == mark then 'P'
      else if InInset(i) then InsetCell(grid, i)
      else s[i])
  }

  /** What the overlay leaves where: map cell `(cx, cy)` shows in inset
      row `cx + 1`, column `cy` unless the marker or the terminator covers
      it; below the inset and right of it the view is kept. */
  lemma OverlayRegions(s: seq<char>, grid: Grid, mark: int, cx: int, cy: int, i: int)
    requires |s| == ScreenWidth * ScreenHeight && 0 <= mark < |s|
    requires InBounds(cx, cy) && Pixel(cy, cx + 1) != mark
    requires 0 <= i < |s| - 1 && i != mark && !InInset(i)
    ensures Overlaid(s, grid, mark)[Pixel(cy, cx + 1)] == grid[CellIndex(cx, cy)]
    ensures Overlaid(s, grid, mark)[i] == s[i]
    ensures Overlaid(s, grid, mark)[|s| - 1] == '\0'
  {
    assert InInset(Pixel(cy, cx + 1));
  }

  /** The inset and the march read the map with the same convention: the
      inset row of cell `(cx, cy)` is `cx + 1` and its column `cy`, so
      the marker of a player inside the map covers exactly the inset cell
      that shows the cell the ray march and the collision test read for
      the player's position. */
  lemma MarkerCoversPlayerCell(grid: Grid, px: real, py: real)
    requires InBounds(Trunc(px), Trunc(py))
    ensures 0 <= MarkIndex(px, py) < ScreenWidth * ScreenHeight - 1
    ensures MarkIndex(px, py) == Pixel(Trunc(py), Trunc(px) + 1)
    ensures InInset(MarkIndex(px, py))
    ensures InsetCell(grid, MarkIndex(px, py)) == grid[CellIndex(Trunc(px), Trunc(py))]
  {
    var m := Pixel(Trunc(py), Trunc(px) + 1);
    assert MarkIndex(px, py) == m;
  }

  /** The overlay (CommandLineRayCaster.cpp:345-356): copy the map into
      rows 1 to 16, mark the player with 'P' and terminate the buffer. */
  method DrawOverlay(screen: array<char>, grid: Grid, px: real, py: real)
    requires screen.Length == ScreenWidth * ScreenHeight
    requires 0 <= MarkIndex(px, py) < screen.Length
    modifies screen
    ensures screen[..] == Overlaid(old(screen[..]), grid, MarkIndex(px, py))
  {
    for nx := 0 to MapWidth
      invariant forall i :: 0 <= i < screen.Length ==>
        screen[i] == if InInset(i) && i % ScreenWidth < nx then InsetCell(grid, i) else old(screen[i])
    {
      for ny := 0 to MapWidth
        invariant forall i :: 0 <= i < screen.Length ==>
          screen[i] == if InInset(i) && (i % ScreenWidth < nx || (i % ScreenWidth == nx && i / ScreenWidth <= ny)) then InsetCell(grid, i) else old(screen[i])
      {
        ghost var j := Pixel(nx, ny + 1);
        screen[Pixel(nx, ny + 1)] := grid[CellIndex(ny, nx)];
        forall i | 0 <= i < screen.Length && i % ScreenWidth == nx && i / ScreenWidth == ny + 1
          ensures i == j
        {
          PixelOf(i);
        }
      }
    }
    screen[MarkIndex(px, py)] := 'P';
    screen[ScreenWidth * ScreenHeight - 1] := '\0';
  }

  /** One frame after input: the column loop, then the overlay. */
  method RenderFrame(screen: array<char>, grid: Grid, player: Player, maths: Maths)
    returns (ghost view: seq<char>, ghost boundaries: seq<bool>)
    requires screen.Length == ScreenWidth * ScreenHeight
    requires 0 <= MarkIndex(player.x, player.y) < ScreenWidth * ScreenHeight
    modifies screen
    ensures |view| == ScreenWidth * ScreenHeight && |boundaries| == ScreenWidth
    ensures forall x :: 0 <= x < ScreenWidth ==> ColumnShows(view, x, grid, player.x, player.y, player.a, maths, boundaries[x])
    ensures screen[..] == Overlaid(view, grid, MarkIndex(player.x, player.y))
  {
    boundaries := RenderView(screen, grid, player.x, player.y, player.a, maths);
    view := screen[..];
    DrawOverlay(screen, grid, player.x, player.y);
  }

  /** Along the centre ray of the first frame every sample lies in map
      row 14, in columns 5 to 14 for the first 99 steps and column 15 at
      step 100. */
  lemma StartSample(k: nat)
    requires 0 < k <= 100
    ensures Sample(StartX, StartY, 0.0, 1.0, k).0 == 14
    ensures k < 100 ==> 5 <= Sample(StartX, StartY, 0.0, 1.0, k).1 < 15
    ensures k == 100 ==> Sample(StartX, StartY, 0.0, 1.0, k).1 == 15
  {
    WalkedBelowDepth(k);
    var w := Walked(k);
    assert w == k as real * 0.1;
    assert Sample(StartX, StartY, 0.0, 1.0, k) == (Trunc(14.7), Trunc(5.09 + w));
    TruncInRange(14.7, 15);
    if k < 100 {
      TruncInRange(5.09 + w, 15);
      TruncMonotone(5.0, 5.09 + w);
    } else {
      assert 5.09 + w == 15.09;
    }
  }

  /** Map row 14, the start row: '#' at both ends, open in between. */
  lemma StartRowCells(c: int)
    requires 0 <= c < MapHeight
    ensures WorldMap[CellIndex(14, c)] == if c == 0 || c == 15 then '#' else '.'
  {
    WorldMapCell(14, c);
  }

  /** The centre ray of the first frame walks through open cells of row
      14 and hits the wall cell (14, 15) at step 100, distance 10. */
  lemma {:induction false} StartRayFrom(k: nat)
    requires k < 100
    ensures MarchFrom(WorldMap, StartX, StartY, 0.0, 1.0, k) == Ray(100, 10.0, Wall(14, 15))
    decreases 100 - k
  {
    WalkedBelowDepth(k);
    WalkedBelowDepth(k + 1);
    StartSample(k + 1);
    var cell := Sample(StartX, StartY, 0.0, 1.0, k + 1);
    StartRowCells(cell.1);
    if k < 99 {
      assert MarchFrom(WorldMap, StartX, StartY, 0.0, 1.0, k) == MarchFrom(WorldMap, StartX, StartY, 0.0, 1.0, k + 1);
      StartRayFrom(k + 1);
    } else {
      assert MarchFrom(WorldMap, StartX, StartY, 0.0, 1.0, k) == Ray(k + 1, Walked(k + 1), Wall(14, 15));
    }
  }

  /** The centre column of the first frame: with the player at the start
      position and heading, column 60 looks straight along the heading and
      sees the wall at (14, 15) ten units away, drawn from row 17 to row
      24 in the lightest wall shade unless it is a boundary. */
  lemma StartCentreColumn(maths: Maths)
    requires maths.sin(0.0) == 0.0 && maths.cos(0.0) == 1.0
    ensures RayAngle(StartA, ScreenWidth / 2) == 0.0
    ensures Cast(WorldMap, StartX, StartY, maths.sin(RayAngle(StartA, ScreenWidth / 2)), maths.cos(RayAngle(StartA, ScreenWidth / 2))) == Ray(100, 10.0, Wall(14, 15))
    ensures CeilingRow(10.0) == 16 && FloorRow(10.0) == 24 && WallShade(10.0, false) == LightShade
  {
    var angle := RayAngle(StartA, ScreenWidth / 2);
    assert angle == (0.0 - FOV / 2.0) + (60.0 / 120.0) * FOV;
    StartRayFrom(0);
    assert CeilingRow(10.0) == Trunc(16.0);
  }
}
