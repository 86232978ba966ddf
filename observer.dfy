/** The observer (player): position and heading, turned by the A and D keys
    and moved by W and S with a collision test against the map
    (CommandLineRayCaster.cpp:89-91, 148-186). */
module Observer {
  import opened Config
  import opened Numeric
  import opened World

  datatype Option<T> = None | Some(value: T)

  /** The flat index the collision test reads: `(int)x * MapWidth + (int)y`. */
  function CollisionIndex(x: real, y: real): int
  {
    Trunc(x) * MapWidth + Trunc(y)
  }

  /** One W or S step exactly as the source writes it: add the step, read
      `map.c_str()` at the collision index with no bounds check, and
      subtract the step again on '#'. Index `|grid|` reads the string's
      terminator; any other index outside the string is undefined
      behaviour, modelled as `None`. On reals the undo restores the old
      position exactly. */
  function MoveAsWritten(grid: Grid, x: real, y: real, dx: real, dy: real): (r: Option<(real, real)>)
    ensures r.Some? <==> 0 <= CollisionIndex(x + dx, y + dy) <= |grid|
    ensures r.Some? && CollisionIndex(x + dx, y + dy) < |grid| && grid[CollisionIndex(x + dx, y + dy)] == '#' ==> r.value == (x, y)
    ensures r.Some? && (CollisionIndex(x + dx, y + dy) == |grid| || grid[CollisionIndex(x + dx, y + dy)] != '#') ==> r.value == (x + dx, y + dy)
  {
    var nx, ny := x + dx, y + dy;
    var i := CollisionIndex(nx, ny);
    if i < 0 || i > |grid| then None
    else if i < |grid| && grid[i] == '#' then Some((nx - dx, ny - dy))
    else Some((nx, ny))
  }

  /** The index test lets a long step through the right-hand wall: from
      the open cell (1, 14), a forward step of 3 at heading 0 (sin 0 = 0,
      cos 0 = 1; speed 5 for a 0.6 s frame) reaches y = 17.5. Its
      collision index 1 * 16 + 17 = 33 wraps into row 2, column 1, which
      is '.', so the move is kept and the player stands outside the map. */
  lemma MoveAsWrittenLeavesGrid()
    ensures !IsWall(WorldMap, 1.5, 14.5)
    ensures MoveAsWritten(WorldMap, 1.5, 14.5, 0.0, 3.0) == Some((1.5, 17.5))
    ensures !InBounds(Trunc(1.5), Trunc(17.5)) && IsWall(WorldMap, 1.5, 17.5)
  {
    WorldMapCell(1, 14);
    WorldMapCell(2, 1);
    assert CollisionIndex(1.5, 17.5) == CellIndex(2, 1);
  }

  /** One W or S step with a fail-closed collision test: the tentative
      position is kept unless it is a wall or outside the map, in which
      case the player stays where it was. A player on an open cell stays
      on an open cell. */
  function Move(grid: Grid, x: real, y: real, dx: real, dy: real): (r: (real, real))
    ensures !IsWall(grid, x, y) ==> !IsWall(grid, r.0, r.1)
    ensures IsWall(grid, x + dx, y + dy) ==> r == (x, y)
    ensures !IsWall(grid, x + dx, y + dy) ==> r == (x + dx, y + dy)
  {
    if IsWall(grid, x + dx, y + dy) then (x, y) else (x + dx, y + dy)
  }

  /** Inside the map the fail-closed test and the source's test agree:
      the step is kept or undone exactly as the source does it. */
  lemma MoveAgreesInsideGrid(grid: Grid, x: real, y: real, dx: real, dy: real)
    requires InBounds(Trunc(x + dx), Trunc(y + dy))
    ensures MoveAsWritten(grid, x, y, dx, dy) == Some(Move(grid, x, y, dx, dy))
  {
    assert CollisionIndex(x + dx, y + dy) == CellIndex(Trunc(x + dx), Trunc(y + dy));
  }

  /** The displacement of one W press at heading `a`: `sin a * Speed *
      elapsed` along x and `cos a * Speed * elapsed` along y. */
  function StepAlong(maths: Maths, a: real, elapsed: real): (real, real)
  {
    (maths.sin(a) * Speed * elapsed, maths.cos(a) * Speed * elapsed)
  }

  /** Which movement keys are held this frame. */
  datatype Keys = Keys(left: bool, right: bool, forward: bool, backward: bool)

  /** Player position and heading (radians), updated in place. */
  class Player {
    var x: real
    var y: real
    var a: real

    /** The player stands on an open cell of the map. */
    ghost predicate Valid(grid: Grid)
      reads this
    {
      !IsWall(grid, x, y)
    }

    /** The start position (14.7, 5.09), facing heading 0. */
    constructor ()
      ensures x == StartX && y == StartY && a == StartA
      ensures Valid(WorldMap)
    {
      x, y, a := StartX, StartY, StartA;
      WorldMapCell(14, 5);
    }

    /** Key A: turn counter-clockwise by `Speed * 0.75` per second. */
    method RotateLeft(elapsed: real)
      modifies this
      ensures a == old(a) - (Speed * 0.75) * elapsed
      ensures x == old(x) && y == old(y)
    {
      a := a - (Speed * 0.75) * elapsed;
    }

    /** Key D: turn clockwise by `Speed * 0.75` per second. */
    method RotateRight(elapsed: real)
      modifies this
      ensures a == old(a) + (Speed * 0.75) * elapsed
      ensures x == old(x) && y == old(y)
    {
      a := a + (Speed * 0.75) * elapsed;
    }

    /** Key W: step along the heading, and step back again if the new
      position is blocked. On reals the step back restores the old
      position exactly. */
    method MoveForward(grid: Grid, maths: Maths, elapsed: real)
      modifies this
      ensures (x, y) == Move(grid, old(x), old(y), StepAlong(maths, old(a), elapsed).0, StepAlong(maths, old(a), elapsed).1)
      ensures a == old(a)
      ensures old(Valid(grid)) ==> Valid(grid)
    {
      var dx, dy := StepAlong(maths, a, elapsed).0, StepAlong(maths, a, elapsed).1;
      x := x + dx;
      y := y + dy;
      if IsWall(grid, x, y) {
        x := x - dx;
        y := y - dy;
      }
    }

    /** Key S: step against the heading, and forward again if the new
      position is blocked. */
    method MoveBackward(grid: Grid, maths: Maths, elapsed: real)
      modifies this
      ensures (x, y) == Move(grid, old(x), old(y), -StepAlong(maths, old(a), elapsed).0, -StepAlong(maths, old(a), elapsed).1)
      ensures a == old(a)
      ensures old(Valid(grid)) ==> Valid(grid)
    {
      var dx, dy := StepAlong(maths, a, elapsed).0, StepAlong(maths, a, elapsed).1;
      x := x - dx;
      y := y - dy;
      if IsWall(grid, x, y) {
        x := x + dx;
        y := y + dy;
      }
    }

    /** The input step of one frame, in the source's order: A, D, W, S.
      A player on an open cell is still on one afterwards; A and D held
      together cancel; W and S move along the heading reached after
      turning. */
    method Update(keys: Keys, grid: Grid, maths: Maths, elapsed: real)
      modifies this
      ensures old(Valid(grid)) ==> Valid(grid)
      ensures !keys.forward && !keys.backward ==> x == old(x) && y == old(y)
      ensures keys.left == keys.right ==> a == old(a)
      ensures keys.left && !keys.right ==> a == old(a) - (Speed * 0.75) * elapsed
      ensures keys.right && !keys.left ==> a == old(a) + (Speed * 0.75) * elapsed
      ensures keys.forward && !keys.backward ==>
        (x, y) == Move(grid, old(x), old(y), StepAlong(maths, a, elapsed).0, StepAlong(maths, a, elapsed).1)
      ensures keys.backward && !keys.forward ==>
        (x, y) == Move(grid, old(x), old(y), -StepAlong(maths, a, elapsed).0, -StepAlong(maths, a, elapsed).1)
      ensures keys.forward && keys.backward ==>
        var m := Move(grid, old(x), old(y), StepAlong(maths, a, elapsed).0, StepAlong(maths, a, elapsed).1);
        (x, y) == Move(grid, m.0, m.1, -StepAlong(maths, a, elapsed).0, -StepAlong(maths, a, elapsed).1)
    {
      if keys.left { RotateLeft(elapsed); }
      if keys.right { RotateRight(elapsed); }
      if keys.forward { MoveForward(grid, maths, elapsed); }
      if keys.backward { MoveBackward(grid, maths, elapsed); }
    }
  }
}
