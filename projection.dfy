/** Projection and shading of one column (CommandLineRayCaster.cpp:297-337):
    the ceiling and floor rows derived from the hit distance, the wall glyph
    chosen by distance band, and the floor glyph chosen by screen row. */
module Projection {
  import opened Config
  import opened Numeric

  /** The last ceiling row: half the screen minus `ScreenHeight / dist`,
      truncated toward zero. It is always above mid-screen, and the
      ceiling starts on screen once the wall is at least two cells away. */
  function CeilingRow(dist: real): (c: int)
    requires dist > 0.0
    ensures c < ScreenHeight / 2
    ensures dist >= 2.0 ==> 0 <= c
  {
    Trunc(ScreenHeight as real / 2.0 - ScreenHeight as real / dist)
  }

  /** The last wall row, mirrored from the ceiling row: the ceiling and
      floor rows add up to the screen height, so the wall span is centred
      on mid-screen and never empty. */
  function FloorRow(dist: real): (f: int)
    requires dist > 0.0
    ensures f + CeilingRow(dist) == ScreenHeight
    ensures ScreenHeight / 2 < f && CeilingRow(dist) < f
  {
    ScreenHeight - CeilingRow(dist)
  }

  /** A farther wall has a lower ceiling row (a shorter span on screen):
      the ceiling row never decreases as the distance grows. */
  lemma CeilingRowMonotone(d1: real, d2: real)
    requires 0.0 < d1 <= d2
    ensures CeilingRow(d1) <= CeilingRow(d2)
    ensures FloorRow(d2) <= FloorRow(d1)
  {
    var h := ScreenHeight as real;
    QuotientAntitone(h, d1, d2);
    TruncMonotone(h / 2.0 - h / d1, h / 2.0 - h / d2);
  }

  /** Dividing a non-negative height by a larger distance gives no more. */
  lemma QuotientAntitone(h: real, d1: real, d2: real)
    requires 0.0 <= h && 0.0 < d1 <= d2
    ensures h / d2 <= h / d1
  {
    var q1, q2 := h / d1, h / d2;
    assert q1 * d1 == h && q2 * d2 == h;
    assert 0.0 <= q2;
    assert q2 * d1 <= q2 * d2;
  }

  /** Every distance the march can report (at most `Depth`) puts the
      ceiling row at 17 or above. */
  lemma CeilingRowWithinDepth(dist: real)
    requires 0.0 < dist <= Depth
    ensures CeilingRow(dist) <= 17
  {
    CeilingRowMonotone(dist, Depth);
  }

  /** The wall glyphs, darkest first: full block, dark, medium and light
      shade (U+2588, U+2593, U+2592, U+2591). */
  const FullBlock: char := '\U{2588}'
  const DarkShade: char := '\U{2593}'
  const MediumShade: char := '\U{2592}'
  const LightShade: char := '\U{2591}'

  /** The wall glyph for a hit at `dist`: four bands up to `Depth / 4`,
      `/ 3`, `/ 2` and `Depth`, blank beyond, and blank on a tile boundary. */
  function WallShade(dist: real, boundary: bool): (shade: char)
    ensures boundary ==> shade == ' '
    ensures dist >= Depth ==> shade == ' '
    ensures !boundary && dist < Depth ==> shade != ' '
  {
    var tiered :=
      if dist <= Depth / 4.0 then FullBlock
      else if dist < Depth / 3.0 then DarkShade
      else if dist < Depth / 2.0 then MediumShade
      else if dist < Depth then LightShade
      else ' ';
    if boundary then ' ' else tiered
  }

  /** The floor glyph for screen row `y`, from the row's normalised
      distance below mid-screen `b`: '#', 'x', '.', '-', blank as `b`
      grows toward 1 (toward the horizon). */
  function FloorShade(y: int): (shade: char)
    ensures shade == '#' <==> y > 35
    ensures shade == 'x' <==> 30 < y <= 35
    ensures shade == '.' <==> 25 < y <= 30
    ensures shade == '-' <==> 22 < y <= 25
    ensures shade == ' ' <==> y <= 22
  {
    var b := 1.0 - ((y as real - ScreenHeight as real / 2.0) / (ScreenHeight as real / 2.0));
    if b < 0.25 then '#'
    else if b < 0.5 then 'x'
    else if b < 0.75 then '.'
    else if b < 0.9 then '-'
    else ' '
  }

  /** How much ink a glyph puts on the screen: 4 for the densest wall or
      floor glyph down to 0 for blank. */
  function Density(c: char): nat
  {
    if c == FullBlock || c == '#' then 4
    else if c == DarkShade || c == 'x' then 3
    else if c == MediumShade || c == '.' then 2
    else if c == LightShade || c == '-' then 1
    else 0
  }

  /** Wall shading fades with distance: a farther wall is never drawn
      with a denser glyph, from the full block at `Depth / 4` or nearer to
      blank at `Depth` or beyond. */
  lemma WallShadeFades(d1: real, d2: real)
    requires d1 <= d2
    ensures Density(WallShade(d2, false)) <= Density(WallShade(d1, false))
    ensures Density(WallShade(d1, false)) == 4 <==> d1 <= Depth / 4.0
    ensures Density(WallShade(d1, false)) == 0 <==> d1 >= Depth
  {
  }

  /** Floor shading darkens toward the bottom of the screen: a lower row
      never gets a lighter glyph; rows at or above mid-screen are blank and
      the bottom row is '#'. */
  lemma FloorShadeDarkens(y1: int, y2: int)
    requires y1 <= y2
    ensures Density(FloorShade(y1)) <= Density(FloorShade(y2))
    ensures y1 <= ScreenHeight / 2 ==> FloorShade(y1) == ' '
    ensures FloorShade(ScreenHeight - 1) == '#'
  {
  }
}
