/** The settings and the maze layout of the Pac-Man game
    (2_3d_pacman/src/utils/Constants.js). In the layout 0 is a pellet, 1 a
    wall and 2 a power pellet. Colours are visual and not modelled. */
module PacmanConfig {
  import opened Grid

  const PlayerSpeed: real := 0.1
  const GhostSpeed: real := 0.08
  const PelletValue: nat := 10
  const PowerPelletValue: nat := 50
  const GhostScore: nat := 200
  const InitialLives: int := 3

  const Pellet: int := 0
  const Wall: int := 1
  const PowerPellet: int := 2

  const MazeLayout: seq<seq<int>> := [
    [1, 1, 1, 1, 1, 1, 1, 1, 1, 1, 1, 1, 1],
    [1, 2, 0, 0, 0, 0, 1, 0, 0, 0, 0, 2, 1],
    [1, 0, 1, 1, 0, 1, 1, 1, 0, 1, 1, 0, 1],
    [1, 0, 0, 0, 0, 0, 0, 0, 0, 0, 0, 0, 1],
    [1, 0, 1, 1, 0, 1, 0, 1, 0, 1, 1, 0, 1],
    [1, 0, 0, 0, 0, 1, 0, 1, 0, 0, 0, 0, 1],
    [1, 1, 1, 1, 0, 1, 0, 1, 0, 1, 1, 1, 1],
    [1, 0, 0, 0, 0, 0, 0, 0, 0, 0, 0, 0, 1],
    [1, 0, 1, 1, 0, 1, 1, 1, 0, 1, 1, 0, 1],
    [1, 2, 0, 0, 0, 0, 1, 0, 0, 0, 0, 2, 1],
    [1, 1, 1, 1, 1, 1, 1, 1, 1, 1, 1, 1, 1]
  ]

  const Rows: nat := 11
  const Cols: nat := 13

  /** Every row has the width of row 0, which is what the maze's offsets and
      bounds rely on. */
  lemma LayoutRectangular()
    ensures |MazeLayout| == Rows
    ensures forall z :: 0 <= z < |MazeLayout| ==> |MazeLayout[z]| == Cols
  {
  }

  lemma LayoutValues()
    ensures forall z, x :: 0 <= z < |MazeLayout| && 0 <= x < |MazeLayout[z]| ==>
      MazeLayout[z][x] in {Pellet, Wall, PowerPellet}
  {
  }

  /** The outer ring of cells is all wall. */
  lemma LayoutBorderIsWall()
    ensures forall x :: 0 <= x < Cols ==> MazeLayout[0][x] == Wall && MazeLayout[Rows - 1][x] == Wall
    ensures forall z :: 0 <= z < Rows ==> MazeLayout[z][0] == Wall && MazeLayout[z][Cols - 1] == Wall
  {
  }

  /** The number of cells of a 13-cell row holding `v`, written out cell by
      cell. */
  function Tally(r: seq<int>, v: int): nat
    requires |r| == Cols
  {
    Hit(r[0], v) + Hit(r[1], v) + Hit(r[2], v) + Hit(r[3], v) + Hit(r[4], v) + Hit(r[5], v) + Hit(r[6], v)
    + Hit(r[7], v) + Hit(r[8], v) + Hit(r[9], v) + Hit(r[10], v) + Hit(r[11], v) + Hit(r[12], v)
  }

  function Hit(cell: int, v: int): nat
  {
    if cell == v then 1 else 0
  }

  lemma CountStep(r: seq<int>, k: nat, v: int)
    requires 0 < k <= |r|
    ensures Count(r[..k], v) == Count(r[..k - 1], v) + Hit(r[k - 1], v)
  {
    assert r[..k][..k - 1] == r[..k - 1];
  }

  /** On a row of the layout's width the recursive count is the tally. */
  lemma CountIsTally(r: seq<int>, v: int)
    requires |r| == Cols
    ensures Count(r, v) == Tally(r, v)
  {
    assert r[..13] == r;
    assert r[..0] == [];
    CountStep(r, 13, v); CountStep(r, 12, v); CountStep(r, 11, v); CountStep(r, 10, v);
    CountStep(r, 9, v); CountStep(r, 8, v); CountStep(r, 7, v); CountStep(r, 6, v);
    CountStep(r, 5, v); CountStep(r, 4, v); CountStep(r, 3, v); CountStep(r, 2, v); CountStep(r, 1, v);
  }

  /** On a layout of 11 rows, the count of `v` is the sum of the row counts. */
  lemma PrefixUnrolled(layout: seq<seq<int>>, v: int)
    requires |layout| == Rows
    ensures PrefixCount(layout, Rows, v) ==
      Count(layout[0], v) + Count(layout[1], v) + Count(layout[2], v) + Count(layout[3], v)
      + Count(layout[4], v) + Count(layout[5], v) + Count(layout[6], v) + Count(layout[7], v)
      + Count(layout[8], v) + Count(layout[9], v) + Count(layout[10], v)
  {
    assert PrefixCount(layout, 1, v) == PrefixCount(layout, 0, v) + Count(layout[0], v);
    assert PrefixCount(layout, 2, v) == PrefixCount(layout, 1, v) + Count(layout[1], v);
    assert PrefixCount(layout, 3, v) == PrefixCount(layout, 2, v) + Count(layout[2], v);
    assert PrefixCount(layout, 4, v) == PrefixCount(layout, 3, v) + Count(layout[3], v);
    assert PrefixCount(layout, 5, v) == PrefixCount(layout, 4, v) + Count(layout[4], v);
    assert PrefixCount(layout, 6, v) == PrefixCount(layout, 5, v) + Count(layout[5], v);
    assert PrefixCount(layout, 7, v) == PrefixCount(layout, 6, v) + Count(layout[6], v);
    assert PrefixCount(layout, 8, v) == PrefixCount(layout, 7, v) + Count(layout[7], v);
    assert PrefixCount(layout, 9, v) == PrefixCount(layout, 8, v) + Count(layout[8], v);
    assert PrefixCount(layout, 10, v) == PrefixCount(layout, 9, v) + Count(layout[9], v);
    assert PrefixCount(layout, 11, v) == PrefixCount(layout, 10, v) + Count(layout[10], v);
  }

  /** The counts of the top and bottom rows. */
  lemma BorderRow(r: seq<int>)
    requires r == [1, 1, 1, 1, 1, 1, 1, 1, 1, 1, 1, 1, 1]
    ensures Count(r, Pellet) == 0 && Count(r, Wall) == 13 && Count(r, PowerPellet) == 0
  {
    CountIsTally(r, Pellet);
    CountIsTally(r, Wall);
    CountIsTally(r, PowerPellet);
  }

  /** The counts of rows 1 and 9, with the power pellets. */
  lemma PowerRow(r: seq<int>)
    requires r == [1, 2, 0, 0, 0, 0, 1, 0, 0, 0, 0, 2, 1]
    ensures Count(r, Pellet) == 8 && Count(r, Wall) == 3 && Count(r, PowerPellet) == 2
  {
    CountIsTally(r, Pellet);
    CountIsTally(r, Wall);
    CountIsTally(r, PowerPellet);
  }

  /** The counts of rows 2 and 8. */
  lemma BlockRow(r: seq<int>)
    requires r == [1, 0, 1, 1, 0, 1, 1, 1, 0, 1, 1, 0, 1]
    ensures Count(r, Pellet) == 4 && Count(r, Wall) == 9 && Count(r, PowerPellet) == 0
  {
    CountIsTally(r, Pellet);
    CountIsTally(r, Wall);
    CountIsTally(r, PowerPellet);
  }

  /** The counts of rows 3 and 7. */
  lemma OpenRow(r: seq<int>)
    requires r == [1, 0, 0, 0, 0, 0, 0, 0, 0, 0, 0, 0, 1]
    ensures Count(r, Pellet) == 11 && Count(r, Wall) == 2 && Count(r, PowerPellet) == 0
  {
    CountIsTally(r, Pellet);
    CountIsTally(r, Wall);
    CountIsTally(r, PowerPellet);
  }

  /** The counts of row 4. */
  lemma PillarRow(r: seq<int>)
    requires r == [1, 0, 1, 1, 0, 1, 0, 1, 0, 1, 1, 0, 1]
    ensures Count(r, Pellet) == 5 && Count(r, Wall) == 8 && Count(r, PowerPellet) == 0
  {
    CountIsTally(r, Pellet);
    CountIsTally(r, Wall);
    CountIsTally(r, PowerPellet);
  }

  /** The counts of row 5. */
  lemma SplitRow(r: seq<int>)
    requires r == [1, 0, 0, 0, 0, 1, 0, 1, 0, 0, 0, 0, 1]
    ensures Count(r, Pellet) == 9 && Count(r, Wall) == 4 && Count(r, PowerPellet) == 0
  {
    CountIsTally(r, Pellet);
    CountIsTally(r, Wall);
    CountIsTally(r, PowerPellet);
  }

  /** The counts of row 6. */
  lemma TunnelRow(r: seq<int>)
    requires r == [1, 1, 1, 1, 0, 1, 0, 1, 0, 1, 1, 1, 1]
    ensures Count(r, Pellet) == 3 && Count(r, Wall) == 10 && Count(r, PowerPellet) == 0
  {
    CountIsTally(r, Pellet);
    CountIsTally(r, Wall);
    CountIsTally(r, PowerPellet);
  }

  /** Row by row, the layout holds 63 pellets, 76 walls and 4 power pellets. */
  lemma RowTallies(v: int)
    requires v in {Pellet, Wall, PowerPellet}
    ensures Count(MazeLayout[0], v) + Count(MazeLayout[1], v) + Count(MazeLayout[2], v) + Count(MazeLayout[3], v)
      + Count(MazeLayout[4], v) + Count(MazeLayout[5], v) + Count(MazeLayout[6], v) + Count(MazeLayout[7], v)
      + Count(MazeLayout[8], v) + Count(MazeLayout[9], v) + Count(MazeLayout[10], v)
      == if v == Pellet then 63 else if v == Wall then 76 else 4
  {
    BorderRow(MazeLayout[0]);
    PowerRow(MazeLayout[1]);
    BlockRow(MazeLayout[2]);
    OpenRow(MazeLayout[3]);
    PillarRow(MazeLayout[4]);
    SplitRow(MazeLayout[5]);
    TunnelRow(MazeLayout[6]);
    OpenRow(MazeLayout[7]);
    BlockRow(MazeLayout[8]);
    PowerRow(MazeLayout[9]);
    BorderRow(MazeLayout[10]);
  }

  /** The layout holds 63 pellet cells, 76 wall cells and 4 power-pellet
      cells: the collectible manager starts with 67 collectibles and the maze
      with 76 walls. */
  lemma LayoutCounts()
    ensures PrefixCount(MazeLayout, Rows, Pellet) == 63
    ensures PrefixCount(MazeLayout, Rows, Wall) == 76
    ensures PrefixCount(MazeLayout, Rows, PowerPellet) == 4
  {
    PrefixUnrolled(MazeLayout, Pellet);
    PrefixUnrolled(MazeLayout, Wall);
    PrefixUnrolled(MazeLayout, PowerPellet);
    RowTallies(Pellet);
    RowTallies(Wall);
    RowTallies(PowerPellet);
  }

  /** Listed cell by cell, the layout gives 63 pellet cells, 4 power-pellet
      cells, 67 cells holding either, and 76 wall cells. */
  lemma LayoutCells()
    ensures |GridCells(MazeLayout, {Pellet})| == 63
    ensures |GridCells(MazeLayout, {PowerPellet})| == 4
    ensures |GridCells(MazeLayout, {Pellet, PowerPellet})| == 67
    ensures |GridCells(MazeLayout, {Wall})| == 76
  {
    LayoutCounts();
    WholeGridCount(MazeLayout, Pellet);
    WholeGridCount(MazeLayout, Wall);
    WholeGridCount(MazeLayout, PowerPellet);
    GridCellsPair(MazeLayout, Pellet, PowerPellet);
  }
}
