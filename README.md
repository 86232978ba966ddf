# Command-line ray caster, modelled in Dafny

This project models one frame of the console ray caster in
`CommandLineRayCaster.cpp`. The world is a 16 x 16 map of wall (`'#'`) and
empty (`'.'`) cells, stored as one flat string. The player has a real
position and a heading. For each of the 120 screen columns the program
casts one ray from the player. The ray advances in steps of 0.1 until it
leaves the map, lands on a wall cell, or has gone the maximum depth of 16.
On a wall hit, the four corners of the hit tile are sorted by distance, and
the three nearest are checked for alignment with the ray; an aligned corner
marks a tile boundary. The distance gives the ceiling and floor rows. The
distance and the boundary flag give the wall glyph, and the screen row
gives the floor glyph. The column is then written into a flat 120 x 40
character buffer. After all columns, the map is copied into the top-left
corner one row down, the player is marked with `'P'`, and the buffer is
terminated with `'\0'`. Before rendering, the A/D keys turn the player and
the W/S keys move it, with a collision test that undoes a move onto `'#'`.

Modules:

- `Config` holds the program's constants.
- `Numeric` defines truncation toward zero, which is C++'s `(int)` cast.
  It also defines `Maths`, the trigonometric functions taken as given.
- `World` holds the map literal and the `x * 16 + y` cell index.
- `RayCaster` models the ray angle, the march, and the corner sort and
  boundary test.
- `Projection` models the ceiling and floor rows and both shade ladders.
- `Observer` models the player and the W/S collision test.
- `Composer` models the column fill, the column loop and the map overlay.

The parts that change state are imperative Dafny methods:

- the march loop;
- the corner vector that is filled and then sorted in place;
- the row loop that writes one column of the `screen` array;
- the nested overlay loops;
- the `Player` class, whose methods update `x`, `y` and `a`.

Each method is proved against a specification function, and the
properties of that function are proved as lemmas. The ray march is
specified by `RayCaster.MarchFrom`, a recursive function over the step
count.

The map-indexing conventions are kept exactly as written. The march and
the collision test read `map[x * 16 + y]`. The inset writes
`map[ny * 16 + nx]` to screen row `ny + 1`, column `nx`. The inset loop
names its variables the other way round from the march, but the layout is
the same: the first coordinate is the map row in every place. `Composer.MarkerCoversPlayerCell` proves that the `'P'` marker
covers exactly the inset cell that shows `map[trunc(x) * 16 + trunc(y)]`,
the cell the march and the collision test read for the player's position.
So the model follows the code, and no convention is changed.

## Model

| member | source | states |
|---|---|---|
| Numeric.Trunc | CommandLineRayCaster.cpp:239-240 | the `(int)` cast truncates toward zero: for a non-negative real the result is within one below it, for a negative real within one above it |
| Numeric.TruncInRange | CommandLineRayCaster.cpp:239-243 | a truncated coordinate lies in `[0, n)` exactly when the real lies in `(-1, n)`, so reals in `(-1, 0)` still count as cell 0 |
| Numeric.TruncMonotone | CommandLineRayCaster.cpp:300 | truncation never reverses the order of two reals |
| World.CellIndex | CommandLineRayCaster.cpp:254 | the index of an in-bounds cell lies inside the 256-character map string |
| World.IsWall | CommandLineRayCaster.cpp:164-170 | the corrected collision test fails closed: a position whose truncated cell is off the map is a wall, and so is every position with a coordinate at or below -1 or at or above 16. A position whose truncated cell is on the map is a wall exactly when that cell is `'#'` |
| World.WorldMapFailsClosed | CommandLineRayCaster.cpp:115-131 | on the program's own map, every real position outside `[0, 16) x [0, 16)` is blocked, including coordinates in `(-1, 0)` that truncate to the walled row or column 0. So a player that is never on a wall stays inside that square |
| World.CellIndexInjective | CommandLineRayCaster.cpp:254 | distinct in-bounds cells have distinct indices |
| World.WorldMapCell | CommandLineRayCaster.cpp:115-131 | the flat map string holds character `c` of literal row `r` at index `r * 16 + c` |
| World.MapRowsRing | CommandLineRayCaster.cpp:116-131 | the first and last rows of the literal are all `'#'`, and every row starts and ends with `'#'` |
| World.OuterRingIsWall | CommandLineRayCaster.cpp:115-131 | every cell on the border of the map is a wall |
| World.StartIsOpen | CommandLineRayCaster.cpp:89-90 | the start position (14.7, 5.09) is on an empty cell |
| RayCaster.RayAngle | CommandLineRayCaster.cpp:215 | column 0 looks at heading − FOV/2, and every screen column's angle lies in [heading − FOV/2, heading + FOV/2) |
| RayCaster.RayAnglesIncrease | CommandLineRayCaster.cpp:212-215 | ray angles strictly increase from left to right |
| RayCaster.RayAngleSpacing | CommandLineRayCaster.cpp:215 | neighbouring columns are exactly FOV/120 apart |
| RayCaster.WalkedBelowDepth | CommandLineRayCaster.cpp:218-235 | after `k` steps the distance is `k * 0.1`; it is below the depth exactly while fewer than 160 steps were taken, and equals it at 160 |
| RayCaster.MarchFrom | CommandLineRayCaster.cpp:233-257 | the march from step `k` ends within the 160 steps. It ends with no hit only after all 160 steps, at distance `Depth`. A wall hit is always an in-bounds `'#'` cell |
| RayCaster.MarchFromFacts | CommandLineRayCaster.cpp:233-257 | the march takes 1 to 160 samples, all but the last of them open cells. It ends in one of three ways: at the first out-of-bounds sample with distance exactly `Depth`; on an in-bounds `'#'` sample with the distance walked; or after the full depth with every sample, the 160th included, an open cell. The distance is always in `(0, Depth]` |
| RayCaster.MarchStopsAtEdge | CommandLineRayCaster.cpp:243-247 | an out-of-bounds sample ends the march at distance `Depth` without reading the map |
| RayCaster.MarchStopsOnWall | CommandLineRayCaster.cpp:254-257 | an in-bounds `'#'` sample ends the march with a wall hit on that cell at the distance walked |
| RayCaster.MarchGoesOn | CommandLineRayCaster.cpp:233-257 | an open sample lets the march continue unchanged from the next step |
| RayCaster.CastBounds | CommandLineRayCaster.cpp:233-247 | a column's march ends with distance in `(0, Depth]`, and with a hit or at distance `Depth` or more |
| RayCaster.CornerRay | CommandLineRayCaster.cpp:274-281 | a corner's dot product is NaN exactly when the corner's distance from the player is zero |
| RayCaster.LengthZero | CommandLineRayCaster.cpp:279 | for a `sqrt` that is zero at zero and nowhere else on the positive reals, the length `sqrt(vx*vx + vy*vy)` is zero exactly when both components are |
| RayCaster.CornerNaNAtPlayer | CommandLineRayCaster.cpp:277-280 | for such a `sqrt`, a corner's dot product is NaN exactly when the player stands on that corner |
| RayCaster.CornerRays | CommandLineRayCaster.cpp:270-283 | the tile has exactly four corner entries; `CollectCorners` proves these are what the loops push, in their order |
| RayCaster.CollectCorners | CommandLineRayCaster.cpp:270-283 | the nested corner loops push the four (distance, dot) pairs in the order of `tx`, then `ty` |
| RayCaster.SwapDown | CommandLineRayCaster.cpp:286 | exchanges two neighbouring corners and changes nothing else |
| RayCaster.InsertLast | CommandLineRayCaster.cpp:286 | extends the sorted prefix of the corner array by one element, keeps the same corners, and leaves every entry after that element as it was |
| RayCaster.SortByDistance | CommandLineRayCaster.cpp:286 | leaves the corner array sorted ascending by distance and a permutation of its input |
| RayCaster.TestBoundary | CommandLineRayCaster.cpp:270-292 | the boundary flag is set exactly when one of the first three entries of some ascending order of the tile's four corners is aligned (`acos(dot) < 0.01`); a set flag always comes from an aligned corner of the tile |
| RayCaster.AlignedIsACorner | CommandLineRayCaster.cpp:290-292 | an aligned entry among the first three of a sorted order is one of the tile's corners |
| RayCaster.FarthestIsLast | CommandLineRayCaster.cpp:286-288 | a corner strictly farther than the other three ends up last in every sorted order |
| RayCaster.NearestThreeAreTheOthers | CommandLineRayCaster.cpp:288-292 | the first three sorted entries are the other three corners |
| RayCaster.FarthestCornerIgnored | CommandLineRayCaster.cpp:288-292 | when one corner is strictly farthest, the flag is set exactly when one of the other three corners is aligned; the farthest corner never affects it, whatever the tie order |
| RayCaster.MarchStep | CommandLineRayCaster.cpp:235-294 | one pass of the loop either advances the march by one step, or stops it with the march's final distance and a decided boundary flag |
| RayCaster.March | CommandLineRayCaster.cpp:217-295 | the loop's distance and hit flag are those of the specified march. The distance is in `(0, Depth]`, with a hit or distance ≥ `Depth`. On a wall hit the boundary flag is the test on a sorted permutation of that tile's corners. The boundary flag can be set only on a wall hit |
| Projection.CeilingRow | CommandLineRayCaster.cpp:300 | the ceiling row is above mid-screen for every positive distance, and not negative from distance 2 on |
| Projection.FloorRow | CommandLineRayCaster.cpp:303 | ceiling row plus floor row is the screen height, and the floor row is below mid-screen and below the ceiling row |
| Projection.CeilingRowMonotone | CommandLineRayCaster.cpp:297-300 | a farther wall has a ceiling row no smaller and a floor row no larger, so it is never drawn taller |
| Projection.CeilingRowWithinDepth | CommandLineRayCaster.cpp:300 | within the maximum depth, the ceiling row is at most 17 |
| Projection.WallShade | CommandLineRayCaster.cpp:306-316 | a boundary or a distance ≥ `Depth` gives a blank; any other distance gives a visible glyph |
| Projection.WallShadeFades | CommandLineRayCaster.cpp:308-314 | the wall glyph's density never increases with distance; it is the full block exactly up to `Depth/4`, and blank exactly from `Depth` on |
| Projection.FloorShade | CommandLineRayCaster.cpp:329-335 | the floor ladder in screen rows: `'#'` from row 36 down, `'x'` in rows 31–35, `'.'` in rows 26–30, `'-'` in rows 23–25, and blank from row 22 up |
| Projection.FloorShadeDarkens | CommandLineRayCaster.cpp:329-335 | the floor glyph's density never decreases down the screen; rows at or above mid-screen are blank, and the bottom row is `'#'` |
| Observer.MoveAsWritten | CommandLineRayCaster.cpp:164-170 | the source's unchecked collision read is defined exactly when its index is in `[0, 256]`. Then the step is undone, restoring the old position exactly on reals, precisely when the indexed character is `'#'`; otherwise the step is kept |
| Observer.MoveAsWrittenLeavesGrid | CommandLineRayCaster.cpp:164-170 | there is a move from an open cell that the source accepts and that ends outside the map |
| Observer.Move | CommandLineRayCaster.cpp:164-170 | the corrected move is undone exactly when the new position is a wall or off the map, and it keeps a player on an open cell on an open cell |
| Observer.MoveAgreesInsideGrid | CommandLineRayCaster.cpp:166 | when the new position is inside the map, the corrected move and the source's move agree |
| Observer.Player.constructor | CommandLineRayCaster.cpp:89-91 | the player starts at (14.7, 5.09) with heading 0, on an open cell |
| Observer.Player.RotateLeft | CommandLineRayCaster.cpp:150-151 | the A key lowers the heading by `Speed * 0.75 * elapsed` and leaves the position alone |
| Observer.Player.RotateRight | CommandLineRayCaster.cpp:155-156 | the D key raises the heading by `Speed * 0.75 * elapsed` and leaves the position alone |
| Observer.Player.MoveForward | CommandLineRayCaster.cpp:159-171 | the W key moves along (sin a, cos a) times `Speed * elapsed`, or stays put when the move is blocked; the heading is unchanged, and a player on an open cell stays on one |
| Observer.Player.MoveBackward | CommandLineRayCaster.cpp:174-186 | the S key is the same move in the opposite direction |
| Observer.Player.Update | CommandLineRayCaster.cpp:148-186 | applies A, D, W and S in the source's order. A and D held together cancel. W or S alone moves along the heading reached after turning. W and S together make the W move and then the S move from where the W move ended. With neither held the position is unchanged. A player on an open cell stays on one |
| Composer.Pixel | CommandLineRayCaster.cpp:324 | `y * 120 + x` is inside the buffer and gives back its column `x` and row `y` |
| Composer.ColumnGlyph | CommandLineRayCaster.cpp:323-337 | a row is blank up to and including the ceiling row, the wall glyph after it up to and including the floor row, and the floor glyph below |
| Composer.WallBandAlwaysShown | CommandLineRayCaster.cpp:297-337 | whatever the ray hits, rows 18 to 23 of every rendered column show that column's wall glyph, because every reported distance keeps the ceiling row at 17 or less and the floor row at 23 or more |
| Composer.FillColumn | CommandLineRayCaster.cpp:320-338 | row `y` of column `x` becomes blank up to the ceiling row, the wall glyph up to the floor row, and the floor glyph below; every cell outside column `x` is unchanged |
| Composer.RenderColumn | CommandLineRayCaster.cpp:214-338 | column `x` shows the march of that column's ray with its projection and shading; no other column changes |
| Composer.RenderView | CommandLineRayCaster.cpp:212-339 | after the column loop every column shows its own ray |
| Composer.ViewDeterminedByColumns | CommandLineRayCaster.cpp:212-339 | two buffers whose columns all show the same rays are equal. Nothing of the previous frame survives the column loop |
| Composer.MarkIndex | CommandLineRayCaster.cpp:350 | for a player whose `(int)y` is a screen column, the `'P'` index lies in buffer row `(int)x + 1`, column `(int)y` |
| Composer.Overlaid | CommandLineRayCaster.cpp:345-351 | the overlaid buffer has the view's size, ends in `'\0'`, and holds `'P'` at the marker index unless the terminator covers it |
| Composer.DrawOverlay | CommandLineRayCaster.cpp:345-356 | the buffer becomes the view with the map inset over rows 1–16 and columns 0–15, the `'P'` marker over that, and `'\0'` in the last cell |
| Composer.OverlayRegions | CommandLineRayCaster.cpp:345-356 | map cell (cx, cy) shows in inset row cx + 1, column cy unless the marker covers it; cells outside the inset keep the view, and the last cell is `'\0'` |
| Composer.MarkerCoversPlayerCell | CommandLineRayCaster.cpp:345-350 | for a player inside the map, the `'P'` index is inside the buffer and lands on the inset cell that shows `map[trunc(x) * 16 + trunc(y)]` |
| Composer.RenderFrame | CommandLineRayCaster.cpp:212-356 | one frame: every column of the view shows its ray, and the final buffer is that view with the overlay |
| Composer.StartSample | CommandLineRayCaster.cpp:233-240 | along the first frame's centre ray, every sample lies in map row 14: columns 5–14 for 99 steps, then column 15 |
| Composer.StartRowCells | CommandLineRayCaster.cpp:130 | map row 14 is `'#'` at both ends and open in between |
| Composer.StartRayFrom | CommandLineRayCaster.cpp:233-257 | the first frame's centre ray hits the wall cell (14, 15) at step 100, distance 10 |
| Composer.StartCentreColumn | CommandLineRayCaster.cpp:212-316 | in the first frame, column 60 looks straight along heading 0 and hits wall (14, 15) ten units away. That wall is drawn in rows 17–24 in the lightest wall shade, unless it is a boundary |

## Left out

- Windows console I/O is not modelled (CommandLineRayCaster.cpp:105-109, 363): `CreateConsoleScreenBuffer`, `SetConsoleActiveScreenBuffer` and `WriteConsoleOutputCharacterW`. The model ends with the finished buffer.
- Keyboard polling with `GetAsyncKeyState` is not modelled. The held keys are a `Keys` value passed to `Player.Update`.
- `chrono` timing and the frame rate are not modelled. The elapsed time is a parameter.
- The `swprintf_s` status line is left out (CommandLineRayCaster.cpp:342), because it is float formatting in a library call. In the model, the first 40 cells of row 0 keep the rendered view instead of the status text.
- The endless `while (1)` frame loop is left out. The model covers one frame: `Player.Update`, then `Composer.RenderFrame`.
- `sinf`, `cosf`, `sqrt` and `acos` are functions given in a `Maths` value. The general contracts assume no property of them. Two kinds of lemma take hypotheses about them: the first-frame scenario `Composer.StartCentreColumn` assumes `sin 0 = 0` and `cos 0 = 1`, and `RayCaster.LengthZero` and `RayCaster.CornerNaNAtPlayer` assume `sqrt` is zero at zero and nowhere else on the positive reals. A zero-length corner vector makes the float dot product NaN. That case is the `NaN` alternative of `Dot`, and it never counts as aligned.
- IEEE `float` rounding is not modelled: all distances and positions are reals. So the exact undo of a blocked move and the 160-step bound on the march hold on reals. With float accumulation of 0.1 the march may take one step more.
- Projection.FloorShade: the row thresholds hold on reals. In `float`, row 22 gives `b = 1.0f - 0.1f`, which rounds below the `double` literal 0.9, so the source shades row 22 `'-'` where the model leaves it blank. No frame shows row 22 as floor: every reported distance puts the ceiling row at 17 or less (`CeilingRowWithinDepth`), so floor glyphs start at row 24 or later.
- RayCaster.SortByDistance: `std::sort` is not stable and leaves ties in an unspecified order. The contract only promises some ascending permutation. For the same reason, `TestBoundary` and `March` state the boundary flag in terms of some sorted permutation rather than one fixed order.
- `World.Grid` accepts any 256-character map. It does not require the map to hold only `'#'` and `'.'`, which is what the source's literal holds. Facts about the actual map are proved about `WorldMap`.

## Findings

| source | as written | input that shows it | evidently intended | confidence | as-written member | corrected member |
|---|---|---|---|---|---|---|
| CommandLineRayCaster.cpp:166 | the collision test reads `map.c_str()[(int)x * 16 + (int)y]` without checking that `(int)y` is below 16. A move past the right-hand wall wraps into the next map row, and a move that lands on a `'.'` there is kept. The same read is at line 181 | from (1.5, 14.5) at heading 0, one W press with `Speed * elapsed` = 3 (a 0.6 s frame) reaches (1.5, 17.5). Index 1 * 16 + 17 = 33 is row 2, column 1, which is `'.'`. So the player stays outside the map, despite the header comment at line 10 | a position outside the map counts as blocked, and the move is undone | medium, not executed | Observer.MoveAsWritten, Observer.MoveAsWrittenLeavesGrid | Observer.Move, Observer.MoveAgreesInsideGrid, Observer.Player.MoveForward, Observer.Player.MoveBackward, Observer.Player.Update |
