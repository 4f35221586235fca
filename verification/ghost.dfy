/** A Pac-Man ghost (2_3d_pacman/src/game/Ghost.js): it runs along one of
    four axis directions, picks a new one at random when its turn cooldown
    runs out (or, with probability 0.01, earlier), and is forced to pick again
    when the next step would enter a wall. The maze it asks (`isWallAt`,
    `cellSize`, `getBounds`) is a parameter, since the maze class does not
    define those members; `Math.random()` values are parameters in [0, 1), and
    the sine of the clock that makes the ghost bob is a parameter in [-1, 1].
    Colours and meshes are not modelled. */
module Ghost {
  import opened Basics
  import opened Geometry
  import PacmanConfig

  const Directions: seq<Vec3> := [Vec3(1.0, 0.0, 0.0), Vec3(-1.0, 0.0, 0.0), Vec3(0.0, 0.0, 1.0), Vec3(0.0, 0.0, -1.0)]
  const Ahead: Vec3 := Vec3(1.0, 0.0, 0.0)
  const FrightenedFactor: real := 0.6
  const TurnCooldown: real := 0.35
  const TurnChance: real := 0.01
  /** Clearance asked of the next position, and of a probe. */
  const MoveClearance: real := 0.38
  const ProbeClearance: real := 0.35
  /** A probe looks this many cells ahead. */
  const ProbeReach: real := 0.6
  /** Dot products below this mark a reversal. */
  const ReverseDot: real := -0.9
  const EdgeMargin: real := 0.4
  const BaseY: real := 0.5
  const BobHeight: real := 0.1

  datatype Ghost = Ghost(pos: Vec3, direction: Vec3, frightened: bool, cooldown: real)

  datatype Bounds = Bounds(minX: real, maxX: real, minZ: real, maxZ: real)

  /** What the ghost asks of the maze. */
  datatype MazeView = MazeView(isWallAt: (Vec3, real) -> bool, cellSize: real, bounds: Bounds)

  /** A random value as `Math.random()` returns it. */
  predicate IsRoll(r: real)
  {
    0.0 <= r < 1.0
  }

  /** The constructor: at the start position if one is given, otherwise at
      the mesh's own (0, 0.5, 0); heading +x, calm, free to turn. */
  function New(start: Option<Vec3>): (g: Ghost)
    ensures g.direction in Directions && !g.frightened && g.cooldown == 0.0
    ensures g.direction == Ahead
    ensures g.pos == (if start.Some? then start.value else Vec3(0.0, BaseY, 0.0))
  {
    Ghost(if start.Some? then start.value else Vec3(0.0, BaseY, 0.0), Ahead, false, 0.0)
  }

  function SetFrightened(g: Ghost, frightened: bool): (r: Ghost)
    ensures r.frightened == frightened
    ensures r.(frightened := g.frightened) == g
  {
    g.(frightened := frightened)
  }

  /** `reset`: a new position, heading +x, calm and free to turn. */
  function Reset(g: Ghost, p: Vec3): (r: Ghost)
    ensures r == New(Some(p))
  {
    Ghost(p, Ahead, false, 0.0)
  }

  /** `d` may be taken: it is not a reversal of the current heading (unless
      the choice is forced) and a probe 0.6 cells along it finds no wall. */
  predicate Open(g: Ghost, maze: MazeView, force: bool, d: Vec3)
  {
    && (force || Dot(d, g.direction) >= ReverseDot)
    && !maze.isWallAt(AddScaled(g.pos, d, maze.cellSize * ProbeReach), ProbeClearance)
  }

  /** The directions among the first `n` of `Directions` that may be taken,
      in order. */
  function OpenAmong(g: Ghost, maze: MazeView, force: bool, n: nat): (r: seq<Vec3>)
    requires n <= |Directions|
    ensures forall d :: d in r <==> d in Directions[..n] && Open(g, maze, force, d)
    ensures |r| <= n
  {
    if n == 0 then []
    else
      var prev := OpenAmong(g, maze, force, n - 1);
      assert Directions[..n] == Directions[..n - 1] + [Directions[n - 1]];
      prev + (if Open(g, maze, force, Directions[n - 1]) then [Directions[n - 1]] else [])
  }

  /** The candidates of a choice: the open directions, or all four when none
      is open. */
  function Options(g: Ghost, maze: MazeView, force: bool): (r: seq<Vec3>)
    ensures 0 < |r| <= |Directions|
    ensures forall d :: d in r ==> d in Directions
    ensures (exists d :: d in Directions && Open(g, maze, force, d)) ==>
      forall d :: d in r <==> d in Directions && Open(g, maze, force, d)
    ensures (forall d :: d in Directions ==> !Open(g, maze, force, d)) ==> r == Directions
  {
    var open := OpenAmong(g, maze, force, |Directions|);
    assert Directions[..|Directions|] == Directions;
    assert |open| > 0 ==> open[0] in open;
    if |open| == 0 then Directions else open
  }

  /** `floor(roll * n)` for a roll in [0, 1) lies in [0, n). */
  function Pick(roll: real, n: nat): (i: nat)
    requires IsRoll(roll) && n > 0
    ensures i < n
  {
    var i := (roll * n as real).Floor;
    assert 0.0 <= roll * n as real < n as real by {
      assert n as real - roll * n as real == (1.0 - roll) * n as real;
    }
    i as nat
  }

  /** `#chooseDirection`: one of the candidates, picked by `roll`. The
      result is always one of the four directions, and an open one whenever
      any is open; an unforced choice never reverses when it has another
      way to go. */
  function ChooseDirection(g: Ghost, maze: MazeView, force: bool, roll: real): (r: Vec3)
    requires IsRoll(roll)
    ensures r in Directions
    ensures (exists d :: d in Directions && Open(g, maze, force, d)) ==> Open(g, maze, force, r)
    ensures r == Options(g, maze, force)[Pick(roll, |Options(g, maze, force)|)]
  {
    var options := Options(g, maze, force);
    options[Pick(roll, |options|)]
  }

  /** `Math.min(hi, Math.max(lo, v))`: when `lo > hi` the upper bound wins. */
  function Confine(v: real, lo: real, hi: real): (r: real)
    ensures lo <= hi ==> lo <= r <= hi
    ensures lo <= v <= hi ==> r == v
    ensures r <= hi
  {
    Min(hi, Max(lo, v))
  }

  /** The step length of one update. */
  function StepLength(g: Ghost, dt: real): real
  {
    (if g.frightened then PacmanConfig.GhostSpeed * FrightenedFactor else PacmanConfig.GhostSpeed) * dt
  }

  /** The rolls one update may consume: the early-turn chance, the regular
      choice and the forced choice. */
  datatype Rolls = Rolls(turn: real, choice: real, forced: real)

  predicate ValidRolls(rolls: Rolls)
  {
    IsRoll(rolls.turn) && IsRoll(rolls.choice) && IsRoll(rolls.forced)
  }

  /** Whether the update chooses afresh before stepping. */
  predicate Turns(g: Ghost, dt: real, rolls: Rolls)
  {
    Max(0.0, g.cooldown - dt) <= 0.0 || rolls.turn < TurnChance
  }

  /** The ghost after the cooldown tick and the optional regular choice. */
  function Steer(g: Ghost, dt: real, maze: MazeView, rolls: Rolls): (r: Ghost)
    requires ValidRolls(rolls)
    ensures r.pos == g.pos && r.frightened == g.frightened
    ensures Turns(g, dt, rolls) ==> r.cooldown == TurnCooldown && r.direction in Directions
    ensures !Turns(g, dt, rolls) ==> r.cooldown == g.cooldown - dt > 0.0 && r.direction == g.direction
  {
    var ticked := g.(cooldown := Max(0.0, g.cooldown - dt));
    if Turns(g, dt, rolls) then
      ticked.(direction := ChooseDirection(ticked, maze, false, rolls.choice), cooldown := TurnCooldown)
    else ticked
  }

  /** `update`: tick the cooldown, maybe turn, then step along the heading
      unless that would enter a wall, in which case turn (forced) and stay;
      finally keep 0.4 inside the maze bounds and bob around height 0.5. */
  function Update(g: Ghost, dt: real, maze: MazeView, rolls: Rolls, wave: real): (r: Ghost)
    requires ValidRolls(rolls)
    requires -1.0 <= wave <= 1.0
    ensures g.direction in Directions ==> r.direction in Directions
    ensures r.frightened == g.frightened
    ensures r.cooldown == (if Turns(g, dt, rolls) then TurnCooldown else g.cooldown - dt)
    ensures BaseY - BobHeight <= r.pos.y <= BaseY + BobHeight
    ensures var b := maze.bounds;
      b.minX + EdgeMargin <= b.maxX - EdgeMargin ==> b.minX + EdgeMargin <= r.pos.x <= b.maxX - EdgeMargin
    ensures var b := maze.bounds;
      b.minZ + EdgeMargin <= b.maxZ - EdgeMargin ==> b.minZ + EdgeMargin <= r.pos.z <= b.maxZ - EdgeMargin
    ensures var s := Steer(g, dt, maze, rolls);
      var next := AddScaled(g.pos, s.direction, StepLength(g, dt));
      var at := if maze.isWallAt(next, MoveClearance) then g.pos else next;
      && r.pos.x == Confine(at.x, maze.bounds.minX + EdgeMargin, maze.bounds.maxX - EdgeMargin)
      && r.pos.z == Confine(at.z, maze.bounds.minZ + EdgeMargin, maze.bounds.maxZ - EdgeMargin)
    ensures var s := Steer(g, dt, maze, rolls);
      var next := AddScaled(g.pos, s.direction, StepLength(g, dt));
      r.direction == (if maze.isWallAt(next, MoveClearance) then ChooseDirection(s, maze, true, rolls.forced) else s.direction)
  {
    var s := Steer(g, dt, maze, rolls);
    var next := AddScaled(s.pos, s.direction, StepLength(g, dt));
    var moved :=
      if maze.isWallAt(next, MoveClearance) then s.(direction := ChooseDirection(s, maze, true, rolls.forced))
      else s.(pos := next);
    var b := maze.bounds;
    moved.(pos := Vec3(
      Confine(moved.pos.x, b.minX + EdgeMargin, b.maxX - EdgeMargin),
      BaseY + wave * BobHeight,
      Confine(moved.pos.z, b.minZ + EdgeMargin, b.maxZ - EdgeMargin)))
  }

  /** Away from walls and edges a ghost travels exactly its step length along
      its heading, and a frightened one covers 0.6 of what a calm one does. */
  lemma FrightenedIsSlower(g: Ghost, dt: real)
    requires dt >= 0.0
    ensures StepLength(g.(frightened := true), dt) == FrightenedFactor * StepLength(g.(frightened := false), dt)
    ensures StepLength(g.(frightened := true), dt) <= StepLength(g.(frightened := false), dt)
  {
  }

  /** An unforced choice with an open alternative never turns the ghost
      around: the dot product with the old heading stays at -0.9 or more. */
  lemma NoReversalWhenAvoidable(g: Ghost, maze: MazeView, roll: real)
    requires IsRoll(roll)
    requires exists d :: d in Directions && Open(g, maze, false, d)
    ensures Dot(ChooseDirection(g, maze, false, roll), g.direction) >= ReverseDot
  {
    var r := ChooseDirection(g, maze, false, roll);
    assert Open(g, maze, false, r);
    assert Dot(r, g.direction) == Dot(g.direction, r);
  }
}
