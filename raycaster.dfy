/** The per-column ray caster of CommandLineRayCaster.cpp:212-295: the ray
    angle of a screen column, the fixed-step march through the map, and the
    tile-boundary test on the four corners of the wall cell that was hit. */
module RayCaster {
  import opened Config
  import opened Numeric
  import opened World

  /** The angle of the ray for screen column `x`: the field of view is
      bisected around the heading and spread evenly over the columns. */
  function RayAngle(playerA: real, x: int): (angle: real)
    ensures x == 0 ==> angle == playerA - FOV / 2.0
    ensures 0 <= x < ScreenWidth ==> playerA - FOV / 2.0 <= angle < playerA + FOV / 2.0
  {
    (playerA - FOV / 2.0) + (x as real / ScreenWidth as real) * FOV
  }

  /** Angles strictly increase from left to right. */
  lemma RayAnglesIncrease(playerA: real, x1: int, x2: int)
    requires x1 < x2
    ensures RayAngle(playerA, x1) < RayAngle(playerA, x2)
  {
  }

  /** Neighbouring columns are one `FOV / ScreenWidth` apart. */
  lemma RayAngleSpacing(playerA: real, x: int)
    ensures RayAngle(playerA, x + 1) - RayAngle(playerA, x) == FOV / ScreenWidth as real
  {
  }

  /** How a march ended: it ran to `Depth` through open cells, it left the
      map, or it sampled wall cell `(cx, cy)`. */
  datatype Hit = Clear | Edge | Wall(cx: int, cy: int)

  /** The outcome of one march: the number of samples taken, the distance
      it reports and how it ended. */
  datatype Ray = Ray(steps: nat, dist: real, hit: Hit)

  /** The cell sampled by the `k`-th step, at distance `k * StepSize` along
      the eye vector, each coordinate truncated toward zero. */
  function Sample(px: real, py: real, eyeX: real, eyeY: real, k: nat): (int, int)
  {
    SampleAt(px, py, eyeX, eyeY, Walked(k))
  }

  /** The distance after `k` steps, accumulated one `StepSize` at a time
      as the source adds it. */
  function Walked(k: nat): real
  {
    if k == 0 then 0.0 else Walked(k - 1) + StepSize
  }

  /** `Walked(k) == k * StepSize`; it stays below `Depth` exactly while
      fewer than `MaxSteps` steps were taken, and reaches `Depth` at
      `MaxSteps`. */
  lemma {:induction false} WalkedBelowDepth(k: nat)
    ensures Walked(k) == k as real * StepSize
    ensures 0 < k ==> 0.0 < Walked(k)
    ensures Walked(k) < Depth <==> k < MaxSteps
    ensures k == MaxSteps ==> Walked(k) == Depth
  {
    if k > 0 {
      WalkedBelowDepth(k - 1);
    }
  }

  /** The cell under the point at distance `d` along the eye vector. */
  function SampleAt(px: real, py: real, eyeX: real, eyeY: real, d: real): (int, int)
  {
    (Trunc(px + eyeX * d), Trunc(py + eyeY * d))
  }

  /** A sampled cell the march walks through: inside the map and not '#'. */
  predicate Open(grid: Grid, cell: (int, int))
  {
    InBounds(cell.0, cell.1) && grid[CellIndex(cell.0, cell.1)] != '#'
  }

  /** The march after `k` samples that all found open cells. */
  function MarchFrom(grid: Grid, px: real, py: real, eyeX: real, eyeY: real, k: nat): (r: Ray)
    requires k <= MaxSteps
    ensures k <= r.steps <= MaxSteps
    ensures r.hit.Clear? ==> r.steps == MaxSteps && r.dist == Depth
    ensures r.hit.Wall? ==> InBounds(r.hit.cx, r.hit.cy) && grid[CellIndex(r.hit.cx, r.hit.cy)] == '#'
    decreases MaxSteps - k
  {
    WalkedBelowDepth(k);
    if Walked(k) >= Depth then Ray(k, Walked(k), Clear)
    else
      var cell := Sample(px, py, eyeX, eyeY, k + 1);
      if !InBounds(cell.0, cell.1) then Ray(k + 1, Depth, Edge)
      else if grid[CellIndex(cell.0, cell.1)] == '#' then Ray(k + 1, Walked(k + 1), Wall(cell.0, cell.1))
      else MarchFrom(grid, px, py, eyeX, eyeY, k + 1)
  }

  /** The march stops at the edge when the next sample leaves the map. */
  lemma MarchStopsAtEdge(grid: Grid, px: real, py: real, eyeX: real, eyeY: real, k: nat)
    requires k < MaxSteps
    requires !InBounds(Sample(px, py, eyeX, eyeY, k + 1).0, Sample(px, py, eyeX, eyeY, k + 1).1)
    ensures MarchFrom(grid, px, py, eyeX, eyeY, k) == Ray(k + 1, Depth, Edge)
  {
    WalkedBelowDepth(k);
  }

  /** The march stops on a wall when the next sample is a '#' cell. */
  lemma MarchStopsOnWall(grid: Grid, px: real, py: real, eyeX: real, eyeY: real, k: nat, cx: int, cy: int)
    requires k < MaxSteps
    requires Sample(px, py, eyeX, eyeY, k + 1) == (cx, cy) && InBounds(cx, cy) && grid[CellIndex(cx, cy)] == '#'
    ensures MarchFrom(grid, px, py, eyeX, eyeY, k) == Ray(k + 1, Walked(k + 1), Wall(cx, cy))
  {
    WalkedBelowDepth(k);
  }

  /** The march goes on through an open sample. */
  lemma MarchGoesOn(grid: Grid, px: real, py: real, eyeX: real, eyeY: real, k: nat)
    requires k < MaxSteps
    requires Open(grid, Sample(px, py, eyeX, eyeY, k + 1))
    ensures MarchFrom(grid, px, py, eyeX, eyeY, k) == MarchFrom(grid, px, py, eyeX, eyeY, k + 1)
  {
    WalkedBelowDepth(k);
  }

  /** The march of a ray from `(px, py)` along `(eyeX, eyeY)`. */
  function Cast(grid: Grid, px: real, py: real, eyeX: real, eyeY: real): Ray
  {
    MarchFrom(grid, px, py, eyeX, eyeY, 0)
  }

  /** What the march guarantees: it takes between one and `MaxSteps`
      samples; every sample before the last one is open; it stops at the
      first sample outside the map (reporting exactly `Depth`) or on a wall
      cell (reporting the distance walked), and otherwise runs until the
      distance reaches `Depth` with every sample open, the last included. */
  lemma {:induction false} MarchFromFacts(grid: Grid, px: real, py: real, eyeX: real, eyeY: real, k: nat)
    requires k <= MaxSteps
    ensures var r := MarchFrom(grid, px, py, eyeX, eyeY, k);
      && k <= r.steps <= MaxSteps
      && 0.0 < r.dist <= Depth
      && (k < MaxSteps ==> k < r.steps)
      && (forall j :: k < j < r.steps ==> Open(grid, Sample(px, py, eyeX, eyeY, j)))
      && (r.hit.Clear? ==> r.steps == MaxSteps && r.dist == Depth)
      && (r.hit.Clear? ==> forall j :: k < j <= r.steps ==> Open(grid, Sample(px, py, eyeX, eyeY, j)))
      && (r.hit.Edge? ==> r.dist == Depth && !InBounds(Sample(px, py, eyeX, eyeY, r.steps).0, Sample(px, py, eyeX, eyeY, r.steps).1))
      && (r.hit.Wall? ==>
            && r.dist == Walked(r.steps)
            && Sample(px, py, eyeX, eyeY, r.steps) == (r.hit.cx, r.hit.cy)
            && InBounds(r.hit.cx, r.hit.cy)
            && grid[CellIndex(r.hit.cx, r.hit.cy)] == '#')
    decreases MaxSteps - k
  {
    WalkedBelowDepth(k);
    if Walked(k) >= Depth {
    } else {
      WalkedBelowDepth(k + 1);
      var cell := Sample(px, py, eyeX, eyeY, k + 1);
      if !InBounds(cell.0, cell.1) {
        assert MarchFrom(grid, px, py, eyeX, eyeY, k) == Ray(k + 1, Depth, Edge);
      } else if grid[CellIndex(cell.0, cell.1)] == '#' {
        assert MarchFrom(grid, px, py, eyeX, eyeY, k) == Ray(k + 1, Walked(k + 1), Wall(cell.0, cell.1));
      } else {
        var r := MarchFrom(grid, px, py, eyeX, eyeY, k + 1);
        assert MarchFrom(grid, px, py, eyeX, eyeY, k) == r;
        MarchFromFacts(grid, px, py, eyeX, eyeY, k + 1);
        forall j | k < j < r.steps || (r.hit.Clear? && k < j <= r.steps)
          ensures Open(grid, Sample(px, py, eyeX, eyeY, j))
        {
          if j == k + 1 {
            assert Sample(px, py, eyeX, eyeY, j) == cell;
          }
        }
      }
    }
  }

  /** A whole march reports a distance in `(0, Depth]`; it either hit
      something or went the full `Depth`. */
  lemma CastBounds(grid: Grid, px: real, py: real, eyeX: real, eyeY: real)
    ensures var r := Cast(grid, px, py, eyeX, eyeY);
      0.0 < r.dist <= Depth && (!r.hit.Clear? || r.dist >= Depth)
  {
    MarchFromFacts(grid, px, py, eyeX, eyeY, 0);
  }

  /** A NaN-free dot product or a float NaN (the quotient of a zero-length
      corner vector); `acos` of NaN is NaN and no comparison with it holds. */
  datatype Dot = Num(value: real) | NaN

  /** A corner of the hit tile as the source pairs it: (distance, dot). */
  type Corner = (real, Dot)

  /** Corner `(cx + ox, cy + oy)` of the hit tile: its distance from the
      player and the cosine between the corner vector and the eye vector. */
  function CornerRay(cx: int, cy: int, ox: int, oy: int, px: real, py: real, eyeX: real, eyeY: real, sqrt: real -> real): (c: Corner)
    ensures c.1.NaN? <==> c.0 == 0.0
  {
    var vy := cy as real + oy as real - py;
    var vx := cx as real + ox as real - px;
    var d := Length(vx, vy, sqrt);
    (d, if d == 0.0 then NaN else Num(eyeX * vx / d + eyeY * vy / d))
  }

  /** The square of a non-zero real is positive. */
  lemma SquarePositive(v: real)
    requires v != 0.0
    ensures v * v > 0.0
  {
    if v < 0.0 {
      assert v * v == (-v) * (-v);
    }
  }

  /** A real's square is never negative. */
  lemma SquareNonNegative(v: real)
    ensures v * v >= 0.0
  {
    if v != 0.0 {
      SquarePositive(v);
    } else {
      assert v * v == 0.0 * 0.0;
    }
  }

  /** The squared length of a vector that is not zero is positive. */
  lemma NormPositive(a: real, b: real)
    requires a != 0.0 || b != 0.0
    ensures a * a + b * b > 0.0
  {
    if a != 0.0 {
      SquarePositive(a);
      SquareNonNegative(b);
    } else {
      SquareNonNegative(a);
      SquarePositive(b);
    }
  }

  /** The length of the vector `(vx, vy)` as the source computes it. */
  function Length(vx: real, vy: real, sqrt: real -> real): real
  {
    sqrt(vx * vx + vy * vy)
  }

  /** A square root that is zero at zero and nowhere else on the positive
      reals, as `sqrt` is. */
  ghost predicate ZeroOnlyAtZero(sqrt: real -> real)
  {
    sqrt(0.0) == 0.0 && forall t :: 0.0 < t ==> sqrt(t) != 0.0
  }

  /** With such a `sqrt`, the length of a vector is zero exactly when the
      vector is. */
  lemma LengthZero(vx: real, vy: real, sqrt: real -> real)
    requires ZeroOnlyAtZero(sqrt)
    ensures Length(vx, vy, sqrt) == 0.0 <==> vx == 0.0 && vy == 0.0
  {
    if vx == 0.0 && vy == 0.0 {
      assert vx * vx + vy * vy == 0.0 * 0.0 + 0.0 * 0.0;
    } else {
      NormPositive(vx, vy);
    }
  }

  /** With a `sqrt` that is zero exactly at zero, a corner's dot product is
      NaN exactly when the player stands on that corner. */
  lemma CornerNaNAtPlayer(cx: int, cy: int, ox: int, oy: int, px: real, py: real, eyeX: real, eyeY: real, sqrt: real -> real)
    requires ZeroOnlyAtZero(sqrt)
    ensures CornerRay(cx, cy, ox, oy, px, py, eyeX, eyeY, sqrt).1.NaN? <==>
      px == cx as real + ox as real && py == cy as real + oy as real
  {
    LengthZero(cx as real + ox as real - px, cy as real + oy as real - py, sqrt);
  }

  /** The four corners of tile `(cx, cy)` in the order the source pushes
      them: `tx` outer, `ty` inner. */
  function CornerRays(cx: int, cy: int, px: real, py: real, eyeX: real, eyeY: real, sqrt: real -> real): (cs: seq<Corner>)
    ensures |cs| == 4
  {
    [CornerRay(cx, cy, 0, 0, px, py, eyeX, eyeY, sqrt), CornerRay(cx, cy, 0, 1, px, py, eyeX, eyeY, sqrt),
     CornerRay(cx, cy, 1, 0, px, py, eyeX, eyeY, sqrt), CornerRay(cx, cy, 1, 1, px, py, eyeX, eyeY, sqrt)]
  }

  /** Fills the corner vector with `push_back`, two nested loops of two. */
  method CollectCorners(cx: int, cy: int, px: real, py: real, eyeX: real, eyeY: real, sqrt: real -> real)
    returns (p: seq<Corner>)
    ensures p == CornerRays(cx, cy, px, py, eyeX, eyeY, sqrt)
  {
    ghost var all := CornerRays(cx, cy, px, py, eyeX, eyeY, sqrt);
    p := [];
    for tx := 0 to 2
      invariant p == all[..2 * tx]
    {
      for ty := 0 to 2
        invariant p == all[..2 * tx + ty]
      {
        p := p + [CornerRay(cx, cy, tx, ty, px, py, eyeX, eyeY, sqrt)];
      }
    }
  }

  /** Ascending by distance, the order `std::sort` leaves the vector in. */
  ghost predicate SortedByDistance(s: seq<Corner>)
  {
    forall i, j :: 0 <= i < j < |s| ==> s[i].0 <= s[j].0
  }

  /** `s` holds the corners of `c`, sorted ascending by distance. Ties may
      come in any order: `std::sort` is not stable. */
  ghost predicate IsSortedPermutation(s: seq<Corner>, c: seq<Corner>)
  {
    SortedByDistance(s) && multiset(s) == multiset(c)
  }

  /** Sorts the corners by distance, in place. */
  method SortByDistance(a: array<Corner>)
    modifies a
    ensures SortedByDistance(a[..])
    ensures multiset(a[..]) == old(multiset(a[..]))
  {
    for i := 0 to a.Length
      invariant SortedByDistance(a[..i])
      invariant multiset(a[..]) == old(multiset(a[..]))
    {
      InsertLast(a, i);
    }
    assert a[..a.Length] == a[..];
  }

  /** One pass of the sort: moves `a[i]` down into the sorted prefix
      `a[..i]` by swapping adjacent corners. */
  method InsertLast(a: array<Corner>, i: int)
    requires 0 <= i < a.Length
    requires SortedByDistance(a[..i])
    modifies a
    ensures SortedByDistance(a[..i + 1])
    ensures multiset(a[..]) == old(multiset(a[..]))
    ensures a[i + 1..] == old(a[i + 1..])
  {
    ghost var start := a[..];
    var j := i;
    while j > 0 && a[j].0 < a[j - 1].0
      invariant 0 <= j <= i
      invariant forall m, n :: 0 <= m < n <= i && m != j && n != j ==> a[m].0 <= a[n].0
      invariant forall n :: j < n <= i ==> a[j].0 <= a[n].0
      invariant multiset(a[..]) == old(multiset(a[..]))
      invariant forall n :: i < n < a.Length ==> a[n] == start[n]
    {
      SwapDown(a, j);
      j := j - 1;
    }
    assert a[i + 1..] == start[i + 1..];
  }

  /** Swaps `a[j - 1]` and `a[j]`. */
  method SwapDown(a: array<Corner>, j: int)
    requires 0 < j < a.Length
    modifies a
    ensures a[j - 1] == old(a[j]) && a[j] == old(a[j - 1])
    ensures forall n :: 0 <= n < a.Length && n != j - 1 && n != j ==> a[n] == old(a[n])
    ensures multiset(a[..]) == old(multiset(a[..]))
  {
    a[j], a[j - 1] := a[j - 1], a[j];
  }

  /** `acos(dot) < fBound`, false for NaN. */
  predicate Aligned(dot: Dot, acos: real -> real)
  {
    dot.Num? && acos(dot.value) < BoundAngle
  }

  /** The boundary test: one of the three nearest corners is aligned with
      the ray. The farthest corner is not looked at. */
  predicate NearCornerAligned(s: seq<Corner>, acos: real -> real)
    requires |s| >= 3
  {
    Aligned(s[0].1, acos) || Aligned(s[1].1, acos) || Aligned(s[2].1, acos)
  }

  /** The boundary test on the wall tile `(cx, cy)`: collect the corners,
      sort them by distance and test the three nearest. */
  method TestBoundary(cx: int, cy: int, px: real, py: real, eyeX: real, eyeY: real, maths: Maths)
    returns (boundary: bool, ghost sorted: seq<Corner>)
    ensures |sorted| == 4
    ensures IsSortedPermutation(sorted, CornerRays(cx, cy, px, py, eyeX, eyeY, maths.sqrt))
    ensures boundary == NearCornerAligned(sorted, maths.acos)
    ensures boundary ==> exists i :: 0 <= i < 4 && Aligned(CornerRays(cx, cy, px, py, eyeX, eyeY, maths.sqrt)[i].1, maths.acos)
  {
    var p := CollectCorners(cx, cy, px, py, eyeX, eyeY, maths.sqrt);
    var a := new Corner[4](i requires 0 <= i < 4 => p[i]);
    assert a[..] == p;
    SortByDistance(a);
    boundary := false;
    if Aligned(a[0].1, maths.acos) { boundary := true; }
    if Aligned(a[1].1, maths.acos) { boundary := true; }
    if Aligned(a[2].1, maths.acos) { boundary := true; }
    sorted := a[..];
    if boundary {
      AlignedIsACorner(sorted, p, maths.acos);
    }
  }

  /** An aligned corner among the three nearest of a sorted order is one
      of the tile's corners. */
  lemma AlignedIsACorner(s: seq<Corner>, c: seq<Corner>, acos: real -> real)
    requires |s| >= 3 && multiset(s) == multiset(c)
    requires NearCornerAligned(s, acos)
    ensures exists i :: 0 <= i < |c| && Aligned(c[i].1, acos)
  {
    var k :| 0 <= k < 3 && Aligned(s[k].1, acos);
    assert s[k] in multiset(c);
    var i :| 0 <= i < |c| && c[i] == s[k];
  }

  /** A corner strictly farther than the other three is last in every
      sorted order. */
  lemma FarthestIsLast(c: seq<Corner>, s: seq<Corner>, j: int)
    requires |c| == 4 && 0 <= j < 4
    requires forall i :: 0 <= i < 4 && i != j ==> c[i].0 < c[j].0
    requires IsSortedPermutation(s, c)
    ensures |s| == 4 && s[3] == c[j]
  {
    assert |s| == |multiset(s)| == |multiset(c)| == 4;
    assert s[3] in multiset(c);
    var m :| 0 <= m < 4 && c[m] == s[3];
    assert c[j] in multiset(s);
    var q :| 0 <= q < 4 && s[q] == c[j];
    assert s[q].0 <= s[3].0;
  }

  /** Removing the farthest corner from both sides leaves the same
      multiset: the three nearest of `s` are the other three of `c`. */
  lemma NearestThreeAreTheOthers(c: seq<Corner>, s: seq<Corner>, j: int)
    requires |c| == 4 && |s| == 4 && 0 <= j < 4
    requires multiset(s) == multiset(c) && s[3] == c[j]
    ensures multiset(s[..3]) == multiset(c[..j] + c[j + 1..])
  {
    assert s == s[..3] + [s[3]];
    assert c == c[..j] + [c[j]] + c[j + 1..];
    assert multiset(s) == multiset(s[..3]) + multiset{s[3]};
    assert multiset(c) == multiset(c[..j] + c[j + 1..]) + multiset{c[j]};
    var near, others, last := multiset(s[..3]), multiset(c[..j] + c[j + 1..]), multiset{c[j]};
    assert near + last == others + last;
    assert near == (near + last) - last;
    assert others == (others + last) - last;
  }

  /** When one corner is strictly farther than the other three, every
      sorted order puts it last, and the boundary test is exactly "one of
      the other three corners is aligned": the farthest never matters. */
  lemma FarthestCornerIgnored(c: seq<Corner>, s: seq<Corner>, j: int, acos: real -> real)
    requires |c| == 4 && 0 <= j < 4
    requires forall i :: 0 <= i < 4 && i != j ==> c[i].0 < c[j].0
    requires IsSortedPermutation(s, c)
    ensures |s| == 4 && s[3] == c[j]
    ensures NearCornerAligned(s, acos) <==> exists i :: 0 <= i < 4 && i != j && Aligned(c[i].1, acos)
  {
    FarthestIsLast(c, s, j);
    NearestThreeAreTheOthers(c, s, j);
    var rest := c[..j] + c[j + 1..];
    if NearCornerAligned(s, acos) {
      var k :| 0 <= k < 3 && Aligned(s[k].1, acos);
      assert s[..3][k] == s[k];
      assert s[k] in multiset(rest);
      var n :| 0 <= n < |rest| && rest[n] == s[k];
      var i := if n < j then n else n + 1;
      assert c[i] == s[k];
    }
    if exists i :: 0 <= i < 4 && i != j && Aligned(c[i].1, acos) {
      var i :| 0 <= i < 4 && i != j && Aligned(c[i].1, acos);
      var n := if i < j then i else i - 1;
      assert rest[n] == c[i];
      assert c[i] in multiset(s[..3]);
      var k :| 0 <= k < 3 && s[..3][k] == c[i];
    }
  }

  /** On a wall hit, `sorted` is an ascending order of the hit tile's four
      corners and `boundary` is the test on its three nearest. */
  ghost predicate BoundaryDecided(ray: Ray, sorted: seq<Corner>, boundary: bool, px: real, py: real, eyeX: real, eyeY: real, maths: Maths)
  {
    ray.hit.Wall? ==>
      && IsSortedPermutation(sorted, CornerRays(ray.hit.cx, ray.hit.cy, px, py, eyeX, eyeY, maths.sqrt))
      && |sorted| == 4
      && boundary == NearCornerAligned(sorted, maths.acos)
  }

  /** One pass of the march loop (CommandLineRayCaster.cpp:235-294): step
      `StepSize` further, truncate the sample point to a cell, stop at
      exactly `Depth` outside the map, stop and run the boundary test on
      '#', and otherwise go on. Here `k` counts the steps already taken
      and `ray` is the march of the whole column. */
  method MarchStep(grid: Grid, px: real, py: real, eyeX: real, eyeY: real, maths: Maths, dist: real, ghost k: nat, ghost ray: Ray)
    returns (next: real, hitWall: bool, boundary: bool, ghost sorted: seq<Corner>)
    requires k < MaxSteps && dist == Walked(k)
    requires MarchFrom(grid, px, py, eyeX, eyeY, k) == ray
    ensures !hitWall ==> next == Walked(k + 1) && MarchFrom(grid, px, py, eyeX, eyeY, k + 1) == ray && !boundary
    ensures hitWall ==> next == ray.dist && !ray.hit.Clear? && BoundaryDecided(ray, sorted, boundary, px, py, eyeX, eyeY, maths)
    ensures boundary ==> ray.hit.Wall?
  {
    sorted := [];
    boundary := false;
    hitWall := false;
    WalkedBelowDepth(k);
    next := dist + StepSize;
    var nTestX := Trunc(px + eyeX * next);
    var nTestY := Trunc(py + eyeY * next);
    assert (nTestX, nTestY) == SampleAt(px, py, eyeX, eyeY, next) == Sample(px, py, eyeX, eyeY, k + 1);
    if nTestX < 0 || nTestX >= MapWidth || nTestY < 0 || nTestY >= MapHeight {
      MarchStopsAtEdge(grid, px, py, eyeX, eyeY, k);
      hitWall := true;
      next := Depth;
    } else if grid[CellIndex(nTestX, nTestY)] == '#' {
      MarchStopsOnWall(grid, px, py, eyeX, eyeY, k, nTestX, nTestY);
      hitWall := true;
      boundary, sorted := TestBoundary(nTestX, nTestY, px, py, eyeX, eyeY, maths);
    } else {
      MarchGoesOn(grid, px, py, eyeX, eyeY, k);
    }
  }

  /** The march of one column (CommandLineRayCaster.cpp:217-295): advance
      by `StepSize` while nothing was hit and the distance is below
      `Depth`; a sample outside the map is a hit at exactly `Depth`; a
      sample on '#' is a wall hit, followed by the boundary test. */
  method March(grid: Grid, px: real, py: real, eyeX: real, eyeY: real, maths: Maths)
    returns (dist: real, hitWall: bool, boundary: bool, ghost ray: Ray, ghost sorted: seq<Corner>)
    ensures ray == Cast(grid, px, py, eyeX, eyeY)
    ensures dist == ray.dist && hitWall == !ray.hit.Clear?
    ensures 0.0 < dist <= Depth
    ensures hitWall || dist >= Depth
    ensures BoundaryDecided(ray, sorted, boundary, px, py, eyeX, eyeY, maths)
    ensures boundary ==> ray.hit.Wall?
  {
    ray := Cast(grid, px, py, eyeX, eyeY);
    sorted := [];
    dist := 0.0;
    hitWall := false;
    boundary := false;
    ghost var k: nat := 0;
    while !hitWall && dist < Depth
      invariant k <= MaxSteps
      invariant !hitWall ==> dist == Walked(k) && MarchFrom(grid, px, py, eyeX, eyeY, k) == ray && !boundary
      invariant hitWall ==> dist == ray.dist && !ray.hit.Clear?
      invariant hitWall ==> BoundaryDecided(ray, sorted, boundary, px, py, eyeX, eyeY, maths)
      invariant boundary ==> ray.hit.Wall?
      decreases MaxSteps - k
    {
      WalkedBelowDepth(k);
      dist, hitWall, boundary, sorted := MarchStep(grid, px, py, eyeX, eyeY, maths, dist, k, ray);
      k := k + 1;
    }
    CastBounds(grid, px, py, eyeX, eyeY);
  }
}
