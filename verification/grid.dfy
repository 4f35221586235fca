/** Row-major enumeration of the cells of a maze layout: a layout is a list of
    rows (z) of cell values (x), and the maze, the collectible manager and the
    game all walk it with `for z … for x …`, picking the cells whose value is
    in some set. */
module Grid {

  datatype Cell = Cell(x: nat, z: nat)

  predicate InGrid(layout: seq<seq<int>>, c: Cell)
  {
    c.z < |layout| && c.x < |layout[c.z]|
  }

  /** Row-major order: earlier row, or same row and earlier column. */
  predicate Before(a: Cell, b: Cell)
  {
    a.z < b.z || (a.z == b.z && a.x < b.x)
  }

  /** The cells of one row, at row index `z`, whose value is in `vals`, left
      to right. */
  function RowCells(row: seq<int>, z: nat, vals: set<int>): (r: seq<Cell>)
    ensures |r| <= |row|
    decreases |row|
  {
    if |row| == 0 then []
    else RowCells(row[..|row| - 1], z, vals) + (if row[|row| - 1] in vals then [Cell(|row| - 1, z)] else [])
  }

  /** The cells of the whole layout whose value is in `vals`, in the order of
      the nested loops. */
  function GridCells(layout: seq<seq<int>>, vals: set<int>): seq<Cell>
    decreases |layout|
  {
    if |layout| == 0 then []
    else GridCells(layout[..|layout| - 1], vals) + RowCells(layout[|layout| - 1], |layout| - 1, vals)
  }

  lemma {:induction false} RowCellsExact(row: seq<int>, z: nat, vals: set<int>)
    ensures forall c :: c in RowCells(row, z, vals) <==> c.z == z && c.x < |row| && row[c.x] in vals
    ensures forall i, j :: 0 <= i < j < |RowCells(row, z, vals)| ==>
      RowCells(row, z, vals)[i].x < RowCells(row, z, vals)[j].x
    decreases |row|
  {
    if |row| > 0 {
      var init := row[..|row| - 1];
      RowCellsExact(init, z, vals);
      assert forall x :: 0 <= x < |init| ==> init[x] == row[x];
    }
  }

  /** A cell is listed exactly when it lies in the layout and its value is
      wanted, and the list is strictly increasing in row-major order, so no
      cell is listed twice. */
  lemma {:induction false} GridCellsExact(layout: seq<seq<int>>, vals: set<int>)
    ensures forall c :: c in GridCells(layout, vals) <==> InGrid(layout, c) && layout[c.z][c.x] in vals
    ensures forall i, j :: 0 <= i < j < |GridCells(layout, vals)| ==>
      Before(GridCells(layout, vals)[i], GridCells(layout, vals)[j])
    decreases |layout|
  {
    if |layout| > 0 {
      var init := layout[..|layout| - 1];
      var z := |layout| - 1;
      GridCellsExact(init, vals);
      RowCellsExact(layout[z], z, vals);
      assert forall k :: 0 <= k < |init| ==> init[k] == layout[k];
      var a := GridCells(init, vals);
      var b := RowCells(layout[z], z, vals);
      assert forall c :: c in a ==> c.z < z;
      forall i, j | 0 <= i < j < |a + b|
        ensures Before((a + b)[i], (a + b)[j])
      {
        if j < |a| {
        } else if i >= |a| {
          assert (a + b)[i] == b[i - |a|] && (a + b)[j] == b[j - |a|];
        } else {
          assert (a + b)[i] in a && (a + b)[j] in b;
        }
      }
    }
  }

  /** How many cells of `row` hold the value `v`. */
  function Count(row: seq<int>, v: int): nat
  {
    if |row| == 0 then 0 else Count(row[..|row| - 1], v) + (if row[|row| - 1] == v then 1 else 0)
  }

  /** How many cells of the first `k` rows hold the value `v`. */
  function PrefixCount(layout: seq<seq<int>>, k: nat, v: int): nat
    requires k <= |layout|
  {
    if k == 0 then 0 else PrefixCount(layout, k - 1, v) + Count(layout[k - 1], v)
  }

  /** A row lists one cell per occurrence of `v`. */
  lemma {:induction false} RowCellsCount(row: seq<int>, z: nat, v: int)
    ensures |RowCells(row, z, {v})| == Count(row, v)
    decreases |row|
  {
    if |row| > 0 {
      RowCellsCount(row[..|row| - 1], z, v);
    }
  }

  /** Listing the cells of value `v` finds as many as there are occurrences
      of `v` in the first `k` rows. */
  lemma {:induction false} GridCellsCount(layout: seq<seq<int>>, k: nat, v: int)
    requires k <= |layout|
    ensures |GridCells(layout[..k], {v})| == PrefixCount(layout, k, v)
    decreases k
  {
    if k > 0 {
      GridCellsCount(layout, k - 1, v);
      assert layout[..k][..k - 1] == layout[..k - 1];
      RowCellsCount(layout[k - 1], k - 1, v);
    }
  }

  /** Listing the cells of either of two values finds those of the one plus
      those of the other. */
  lemma {:induction false} RowCellsPair(row: seq<int>, z: nat, a: int, b: int)
    requires a != b
    ensures |RowCells(row, z, {a, b})| == |RowCells(row, z, {a})| + |RowCells(row, z, {b})|
    decreases |row|
  {
    if |row| > 0 {
      RowCellsPair(row[..|row| - 1], z, a, b);
    }
  }

  lemma {:induction false} GridCellsPair(layout: seq<seq<int>>, a: int, b: int)
    requires a != b
    ensures |GridCells(layout, {a, b})| == |GridCells(layout, {a})| + |GridCells(layout, {b})|
    decreases |layout|
  {
    if |layout| > 0 {
      GridCellsPair(layout[..|layout| - 1], a, b);
      RowCellsPair(layout[|layout| - 1], |layout| - 1, a, b);
    }
  }

  lemma WholeGridCount(layout: seq<seq<int>>, v: int)
    ensures |GridCells(layout, {v})| == PrefixCount(layout, |layout|, v)
  {
    assert layout[..|layout|] == layout;
    GridCellsCount(layout, |layout|, v);
  }
}
