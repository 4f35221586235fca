/** The pellet bookkeeping of the Pac-Man game
    (2_3d_pacman/src/game/CollectibleManager.js): one list of pellets and one
    of power pellets, built from the layout in row-major order, each entry
    with its instance index, world position and an active flag, plus the
    remaining counts. Instanced meshes, bobbing and pulsing are rendering and
    are not modelled; `maze.gridToWorld` is a parameter because the maze class
    does not define it. */
module Collectibles {
  import opened Basics
  import opened Geometry
  import opened Grid

  const PelletCell: int := 0
  const PowerCell: int := 2
  /** Resting heights of the two kinds. */
  const PelletY: real := 0.45
  const PowerY: real := 0.5
  /** Pick-up radii 0.45 and 0.55, compared squared and inclusive. */
  const PelletRadiusSq: real := 0.2025
  const PowerRadiusSq: real := 0.3025

  datatype Item = Item(index: nat, pos: Vec3, active: bool)
  datatype Kind = PelletKind | PowerKind

  datatype Manager = Manager(pellets: seq<Item>, powers: seq<Item>, remainingPellets: nat, remainingPowers: nat)

  type GridToWorld = (nat, nat) -> Vec3

  function ActiveCount(items: seq<Item>): (n: nat)
    ensures n <= |items|
  {
    if |items| == 0 then 0
    else ActiveCount(items[..|items| - 1]) + (if items[|items| - 1].active then 1 else 0)
  }

  /** Each entry carries its own position in the list as its instance index. */
  predicate Indexed(items: seq<Item>)
  {
    forall i :: 0 <= i < |items| ==> items[i].index == i
  }

  /** The remaining counts are the numbers of active entries. */
  predicate Inv(m: Manager)
  {
    && Indexed(m.pellets) && Indexed(m.powers)
    && m.remainingPellets == ActiveCount(m.pellets)
    && m.remainingPowers == ActiveCount(m.powers)
  }

  /** `getRemainingCount`. */
  function RemainingCount(m: Manager): (n: nat)
    ensures Inv(m) ==> n == ActiveCount(m.pellets) + ActiveCount(m.powers)
  {
    m.remainingPellets + m.remainingPowers
  }

  lemma {:induction false} AllActiveCount(items: seq<Item>)
    requires forall i :: 0 <= i < |items| ==> items[i].active
    ensures ActiveCount(items) == |items|
    decreases |items|
  {
    if |items| > 0 {
      AllActiveCount(items[..|items| - 1]);
    }
  }

  /** One active entry per cell, at the cell's world position raised to `y`. */
  function Place(cells: seq<Cell>, y: real, toWorld: GridToWorld): (r: seq<Item>)
    ensures |r| == |cells|
    ensures Indexed(r)
    ensures forall i :: 0 <= i < |r| ==> r[i].active && r[i].pos == toWorld(cells[i].x, cells[i].z).(y := y)
  {
    seq(|cells|, i requires 0 <= i < |cells| => Item(i, toWorld(cells[i].x, cells[i].z).(y := y), true))
  }

  /** The constructor: every pellet and power pellet of the layout, active,
      and counts to match. */
  function Create(layout: seq<seq<int>>, toWorld: GridToWorld): (m: Manager)
    ensures Inv(m)
    ensures |m.pellets| == m.remainingPellets == |GridCells(layout, {PelletCell})|
    ensures |m.powers| == m.remainingPowers == |GridCells(layout, {PowerCell})|
    ensures forall i :: 0 <= i < |m.pellets| ==> m.pellets[i].active
    ensures forall i :: 0 <= i < |m.powers| ==> m.powers[i].active
    ensures forall i :: 0 <= i < |m.pellets| ==>
      var c := GridCells(layout, {PelletCell})[i]; m.pellets[i].pos == toWorld(c.x, c.z).(y := PelletY)
    ensures forall i :: 0 <= i < |m.powers| ==>
      var c := GridCells(layout, {PowerCell})[i]; m.powers[i].pos == toWorld(c.x, c.z).(y := PowerY)
  {
    var pellets := Place(GridCells(layout, {PelletCell}), PelletY, toWorld);
    var powers := Place(GridCells(layout, {PowerCell}), PowerY, toWorld);
    AllActiveCount(pellets);
    AllActiveCount(powers);
    Manager(pellets, powers, |pellets|, |powers|)
  }

  /** The counting pass of the constructor, as the nested loops over rows and
      columns it is; its totals are the sizes of the two lists. */
  method CountCollectibles(layout: seq<seq<int>>) returns (pellets: nat, powers: nat)
    ensures pellets == |GridCells(layout, {PelletCell})|
    ensures powers == |GridCells(layout, {PowerCell})|
  {
    pellets, powers := 0, 0;
    var z := 0;
    while z < |layout|
      invariant 0 <= z <= |layout|
      invariant pellets == |GridCells(layout[..z], {PelletCell})|
      invariant powers == |GridCells(layout[..z], {PowerCell})|
    {
      var row := layout[z];
      var x := 0;
      while x < |row|
        invariant 0 <= x <= |row|
        invariant pellets == |GridCells(layout[..z], {PelletCell})| + |RowCells(row[..x], z, {PelletCell})|
        invariant powers == |GridCells(layout[..z], {PowerCell})| + |RowCells(row[..x], z, {PowerCell})|
      {
        assert row[..x + 1][..x] == row[..x];
        if row[x] == PelletCell {
          pellets := pellets + 1;
        } else if row[x] == PowerCell {
          powers := powers + 1;
        }
        x := x + 1;
      }
      assert row[..x] == row;
      assert layout[..z + 1][..z] == layout[..z];
      z := z + 1;
    }
    assert layout[..z] == layout;
  }

  predicate Within(item: Item, p: Vec3, radiusSq: real)
  {
    item.active && DistSq(p, item.pos) <= radiusSq
  }

  /** The first active entry at or after `from` within reach of `p`. */
  function FindFrom(items: seq<Item>, p: Vec3, radiusSq: real, from: nat): (r: Option<nat>)
    requires from <= |items|
    ensures r.Some? ==> from <= r.value < |items| && Within(items[r.value], p, radiusSq)
    ensures r.Some? ==> forall j :: from <= j < r.value ==> !Within(items[j], p, radiusSq)
    ensures r.None? <==> forall j :: from <= j < |items| ==> !Within(items[j], p, radiusSq)
    decreases |items| - from
  {
    if from == |items| then None
    else if Within(items[from], p, radiusSq) then Some(from)
    else FindFrom(items, p, radiusSq, from + 1)
  }

  function Deactivate(items: seq<Item>, k: nat): seq<Item>
    requires k < |items|
  {
    items[k := items[k].(active := false)]
  }

  lemma {:induction false} DeactivateCount(items: seq<Item>, k: nat)
    requires k < |items| && items[k].active
    ensures ActiveCount(Deactivate(items, k)) == ActiveCount(items) - 1
    decreases |items|
  {
    var d := Deactivate(items, k);
    var n := |items| - 1;
    if k == n {
      assert d[..n] == items[..n];
    } else {
      assert d[..n] == Deactivate(items[..n], k);
      DeactivateCount(items[..n], k);
    }
  }

  /** `#collectFromList`: deactivate the first active entry within reach and
      report it; the list is unchanged when there is none. */
  function CollectFromList(items: seq<Item>, p: Vec3, radiusSq: real): (r: (seq<Item>, Option<nat>))
    ensures r.1.None? <==> forall j :: 0 <= j < |items| ==> !Within(items[j], p, radiusSq)
    ensures r.1.None? ==> r.0 == items
    ensures r.1.Some? ==>
      && r.1.value < |items| && Within(items[r.1.value], p, radiusSq)
      && (forall j :: 0 <= j < r.1.value ==> !Within(items[j], p, radiusSq))
      && r.0 == Deactivate(items, r.1.value)
      && ActiveCount(r.0) == ActiveCount(items) - 1
  {
    var found := FindFrom(items, p, radiusSq, 0);
    if found.None? then (items, None)
    else
      DeactivateCount(items, found.value);
      (Deactivate(items, found.value), found)
  }

  /** `Math.max(0, n - 1)` on a count. */
  function Decrement(n: nat): nat
  {
    if n == 0 then 0 else n - 1
  }

  /** `collectAt`: power pellets are tried first, then pellets; the kind of
      the entry picked up, if any. */
  function CollectAt(m: Manager, p: Vec3): (r: (Manager, Option<Kind>))
    ensures Inv(m) ==> Inv(r.0)
    ensures r.1 == Some(PowerKind) <==> exists j :: 0 <= j < |m.powers| && Within(m.powers[j], p, PowerRadiusSq)
    ensures r.1.None? <==>
      && (forall j :: 0 <= j < |m.powers| ==> !Within(m.powers[j], p, PowerRadiusSq))
      && (forall j :: 0 <= j < |m.pellets| ==> !Within(m.pellets[j], p, PelletRadiusSq))
    ensures r.1.None? ==> r.0 == m
    ensures r.1 == Some(PowerKind) ==>
      r.0.pellets == m.pellets && r.0.powers == CollectFromList(m.powers, p, PowerRadiusSq).0
    ensures r.1 == Some(PelletKind) ==>
      r.0.powers == m.powers && r.0.pellets == CollectFromList(m.pellets, p, PelletRadiusSq).0
    ensures Inv(m) ==> RemainingCount(r.0) == RemainingCount(m) - (if r.1.Some? then 1 else 0)
  {
    var (powers, power) := CollectFromList(m.powers, p, PowerRadiusSq);
    if power.Some? then
      (m.(powers := powers, remainingPowers := Decrement(m.remainingPowers)), Some(PowerKind))
    else
      var (pellets, pellet) := CollectFromList(m.pellets, p, PelletRadiusSq);
      if pellet.Some? then
        (m.(pellets := pellets, remainingPellets := Decrement(m.remainingPellets)), Some(PelletKind))
      else (m, None)
  }

  /** Collecting only ever switches entries off: positions and indices stay,
      and an entry once collected is never active again. */
  lemma CollectOnlyDeactivates(m: Manager, p: Vec3)
    ensures |CollectAt(m, p).0.pellets| == |m.pellets| && |CollectAt(m, p).0.powers| == |m.powers|
    ensures forall i :: 0 <= i < |m.pellets| ==>
      CollectAt(m, p).0.pellets[i].pos == m.pellets[i].pos && (CollectAt(m, p).0.pellets[i].active ==> m.pellets[i].active)
    ensures forall i :: 0 <= i < |m.powers| ==>
      CollectAt(m, p).0.powers[i].pos == m.powers[i].pos && (CollectAt(m, p).0.powers[i].active ==> m.powers[i].active)
  {
  }

  /** Once nothing remains, nothing more can be collected anywhere. */
  lemma EmptyCollectsNothing(m: Manager, p: Vec3)
    requires Inv(m) && RemainingCount(m) == 0
    ensures CollectAt(m, p) == (m, None)
  {
    NoneActive(m.pellets);
    NoneActive(m.powers);
  }

  lemma {:induction false} NoneActive(items: seq<Item>)
    requires ActiveCount(items) == 0
    ensures forall i :: 0 <= i < |items| ==> !items[i].active
    decreases |items|
  {
    if |items| > 0 {
      NoneActive(items[..|items| - 1]);
      assert forall i :: 0 <= i < |items| - 1 ==> items[i] == items[..|items| - 1][i];
    }
  }
}
