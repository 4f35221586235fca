/** The Pac-Man maze (2_3d_pacman/src/game/Maze.js): one wall block per
    layout cell of value 1, placed on a grid of spacing 2 centred on the
    origin, and the push-out collision test the game applies to the player.

    The direction of a push is `(cos a, sin a)` with `a = atan2(dz, dx)`, times
    `1.6 - distance`; trigonometry and square roots are not modelled, so the
    displacement is a parameter `push` giving, for the offset `(dx, dz)` of the
    player from a wall it is too close to, the amount added to x and z. */
module Maze {
  import opened Basics
  import opened Geometry
  import opened Grid

  const WallValue: int := 1
  /** Height of a wall's centre: half of its height of 6. */
  const WallCentreY: real := 3.0
  /** Walls closer than 1.6 push the player; compared squared. */
  const CollisionThreshold: real := 1.6
  const ThresholdSq: real := 2.56

  type Push = (real, real) -> (real, real)

  /** Width and depth in cells; the width is that of row 0. */
  function Width(layout: seq<seq<int>>): nat
    requires |layout| > 0
  {
    |layout[0]|
  }

  /** Centre of the wall block of cell `c`: spacing 2, shifted back by the
      width (x) and the number of rows (z). */
  function WallCentre(layout: seq<seq<int>>, c: Cell): Vec3
    requires |layout| > 0
  {
    Vec3((2 * c.x - Width(layout)) as real, WallCentreY, (2 * c.z - |layout|) as real)
  }

  /** The wall blocks in the order the constructor creates them. */
  function Walls(layout: seq<seq<int>>): (r: seq<Vec3>)
    requires |layout| > 0
    ensures |r| == |GridCells(layout, {WallValue})|
    ensures forall i :: 0 <= i < |r| ==> r[i] == WallCentre(layout, GridCells(layout, {WallValue})[i])
  {
    var cells := GridCells(layout, {WallValue});
    seq(|cells|, i requires 0 <= i < |cells| => WallCentre(layout, cells[i]))
  }

  /** There is a wall block exactly at the centre of each wall cell, and
      nowhere else. */
  lemma WallsAreWallCells(layout: seq<seq<int>>, p: Vec3)
    requires |layout| > 0
    ensures p in Walls(layout) <==>
      exists c :: InGrid(layout, c) && layout[c.z][c.x] == WallValue && p == WallCentre(layout, c)
  {
    var cells := GridCells(layout, {WallValue});
    GridCellsExact(layout, {WallValue});
    if p in Walls(layout) {
      var i :| 0 <= i < |Walls(layout)| && Walls(layout)[i] == p;
      assert cells[i] in cells;
    }
    if exists c :: InGrid(layout, c) && layout[c.z][c.x] == WallValue && p == WallCentre(layout, c) {
      var c :| InGrid(layout, c) && layout[c.z][c.x] == WallValue && p == WallCentre(layout, c);
      assert c in cells;
      var i :| 0 <= i < |cells| && cells[i] == c;
      assert Walls(layout)[i] == p;
    }
  }

  /** Squared distance in the horizontal plane, the one the test measures. */
  function FlatDistSq(p: Vec3, w: Vec3): (r: real)
    ensures r >= 0.0
  {
    var dx := p.x - w.x;
    var dz := p.z - w.z;
    assert dx * dx >= 0.0 && dz * dz >= 0.0;
    dx * dx + dz * dz
  }

  predicate TooClose(p: Vec3, w: Vec3)
  {
    FlatDistSq(p, w) < ThresholdSq
  }

  /** The player position after one wall's push. */
  function PushOut(p: Vec3, w: Vec3, push: Push): Vec3
  {
    if TooClose(p, w) then
      var d := push(p.x - w.x, p.z - w.z);
      p.(x := p.x + d.0, z := p.z + d.1)
    else p
  }

  /** Visit the walls in order, each seeing the position the previous pushes
      left; the flag says whether any wall pushed. No push happens exactly
      when the starting position is clear of every wall. */
  function PushAll(walls: seq<Vec3>, p: Vec3, push: Push): (r: (Vec3, bool))
    ensures r.0.y == p.y
    ensures !r.1 <==> forall i :: 0 <= i < |walls| ==> !TooClose(p, walls[i])
    ensures !r.1 ==> r.0 == p
    decreases |walls|
  {
    if |walls| == 0 then (p, false)
    else
      var rest := PushAll(walls[1..], PushOut(p, walls[0], push), push);
      assert forall i :: 1 <= i < |walls| ==> walls[i] == walls[1..][i - 1];
      (rest.0, rest.1 || TooClose(p, walls[0]))
  }

  /** `x` and `z` stay within twice the width and twice the depth. */
  predicate InBounds(layout: seq<seq<int>>, p: Vec3)
    requires |layout| > 0
  {
    && -2.0 * Width(layout) as real <= p.x <= 2.0 * Width(layout) as real
    && -2.0 * |layout| as real <= p.z <= 2.0 * |layout| as real
  }

  function ClampToBounds(layout: seq<seq<int>>, p: Vec3): (r: Vec3)
    requires |layout| > 0
    ensures InBounds(layout, r)
    ensures r.y == p.y
    ensures InBounds(layout, p) ==> r == p
  {
    var bx := Width(layout) as real;
    var bz := |layout| as real;
    p.(x := Clamp(p.x, -bx * 2.0, bx * 2.0), z := Clamp(p.z, -bz * 2.0, bz * 2.0))
  }

  /** `checkCollision`: the new position and whether a wall pushed. */
  function CheckCollision(layout: seq<seq<int>>, p: Vec3, push: Push): (r: (Vec3, bool))
    requires |layout| > 0
    ensures InBounds(layout, r.0)
    ensures r.0.y == p.y
    ensures r.1 <==> exists i :: 0 <= i < |Walls(layout)| && TooClose(p, Walls(layout)[i])
    ensures !r.1 ==> r.0 == ClampToBounds(layout, p)
  {
    var pushed := PushAll(Walls(layout), p, push);
    (ClampToBounds(layout, pushed.0), pushed.1)
  }

  /** A position already inside the bounds and clear of every wall is left
      where it is, so applying the test again to its own result when nothing
      collided changes nothing. */
  lemma ClearPositionIsFixed(layout: seq<seq<int>>, p: Vec3, push: Push)
    requires |layout| > 0
    ensures !CheckCollision(layout, p, push).1 && InBounds(layout, p) ==> CheckCollision(layout, p, push).0 == p
    ensures (forall i :: 0 <= i < |Walls(layout)| ==> !TooClose(p, Walls(layout)[i])) ==>
      CheckCollision(layout, p, push) == (ClampToBounds(layout, p), false)
  {
  }
}
