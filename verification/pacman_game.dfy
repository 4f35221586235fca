/** The Pac-Man game object (2_3d_pacman/src/game/Game.js): score, lives,
    the game-over flag, power mode, the player, four ghosts and its own list
    of collectibles, and the rules of `checkCollisions`, `activatePowerMode`,
    `handlePlayerDeath` and `resetGhost`.

    As written, the constructor's `init` reads `this.player.mesh` before it
    assigns `this.player`, and `update` calls `ghost.update()` without the
    time step and maze the ghost needs, so the class never reaches its game
    loop; each method is modelled on its own, with the ghost step a
    parameter. `Math.random()` is a stream `rng` of values, `draws` counting
    how many have been used. Rendering, the camera, lights, the DOM, `alert`
    and the ten-second timer are not modelled; the timer's callback is the
    separate event `EndPowerMode`. */
module PacmanGame {
  import opened Basics
  import opened Geometry
  import opened Grid
  import opened Seqs
  import PacmanConfig
  import Pl = Player
  import Gh = Ghost
  import Mz = Maze
  import Cm = Collectibles

  datatype Kind = PelletItem | PowerPelletItem
  datatype Collectible = Collectible(kind: Kind, pos: Vec3)

  datatype Game = Game(
    score: nat,
    lives: int,
    gameOver: bool,
    powerMode: bool,
    player: Pl.Player,
    ghosts: seq<Gh.Ghost>,
    collectibles: seq<Collectible>,
    draws: nat)

  type Rng = nat -> real

  /** A pick-up happens closer than 0.7, a ghost contact closer than 1;
      both compared squared. */
  const PickupDistSq: real := 0.49
  const ContactDistSq: real := 1.0
  /** A respawned ghost lands within 5 of the origin on x and z. */
  const RespawnSpan: real := 10.0
  const GhostStarts: seq<Vec3> :=
    [Vec3(-5.0, 0.5, -5.0), Vec3(5.0, 0.5, -5.0), Vec3(-5.0, 0.5, 5.0), Vec3(5.0, 0.5, 5.0)]

  function Value(c: Collectible): nat
  {
    if c.kind == PowerPelletItem then PacmanConfig.PowerPelletValue else PacmanConfig.PelletValue
  }

  /** The points still lying in the maze. */
  function TotalValue(items: seq<Collectible>): nat
  {
    if |items| == 0 then 0 else TotalValue(items[..|items| - 1]) + Value(items[|items| - 1])
  }

  /** Cell (x, z) holds its collectible at (x - w/2, 0.5, z - h/2), `w` being
      the row's width and `h` the number of rows. */
  function CollectiblePos(layout: seq<seq<int>>, c: Cell): Vec3
    requires InGrid(layout, c)
  {
    Vec3(c.x as real - |layout[c.z]| as real / 2.0, 0.5, c.z as real - |layout| as real / 2.0)
  }

  /** The collectibles `init` creates: one per pellet or power-pellet cell,
      in row-major order. */
  function LayoutCollectibles(layout: seq<seq<int>>): (r: seq<Collectible>)
    ensures |r| == |GridCells(layout, {PacmanConfig.Pellet, PacmanConfig.PowerPellet})|
    ensures forall i :: 0 <= i < |r| ==>
      var c := GridCells(layout, {PacmanConfig.Pellet, PacmanConfig.PowerPellet})[i];
      && InGrid(layout, c)
      && r[i].pos == CollectiblePos(layout, c)
      && (r[i].kind == PowerPelletItem <==> layout[c.z][c.x] == PacmanConfig.PowerPellet)
  {
    var cells := GridCells(layout, {PacmanConfig.Pellet, PacmanConfig.PowerPellet});
    GridCellsExact(layout, {PacmanConfig.Pellet, PacmanConfig.PowerPellet});
    assert forall i :: 0 <= i < |cells| ==> cells[i] in cells;
    seq(|cells|, i requires 0 <= i < |cells| =>
      Collectible(
        if layout[cells[i].z][cells[i].x] == PacmanConfig.PowerPellet then PowerPelletItem else PelletItem,
        CollectiblePos(layout, cells[i])))
  }

  /** The state the constructor and `init` set up. */
  function Initial(): (g: Game)
    ensures g.score == 0 && g.lives == PacmanConfig.InitialLives && !g.gameOver && !g.powerMode
    ensures |g.ghosts| == 4 && forall i :: 0 <= i < 4 ==> g.ghosts[i].pos == GhostStarts[i]
    ensures g.player == Pl.New()
    ensures g.collectibles == LayoutCollectibles(PacmanConfig.MazeLayout)
    ensures Inv(g)
  {
    Game(0, PacmanConfig.InitialLives, false, false, Pl.New(),
      seq(4, i requires 0 <= i < 4 => Gh.New(Some(GhostStarts[i]))),
      LayoutCollectibles(PacmanConfig.MazeLayout), 0)
  }

  /** On the shipped layout the maze builds 76 wall blocks, the collectible
      manager starts with 63 pellets and 4 power pellets, and the game's own
      list holds all 67. */
  lemma StartingCounts(toWorld: Cm.GridToWorld)
    ensures |Mz.Walls(PacmanConfig.MazeLayout)| == 76
    ensures Cm.Create(PacmanConfig.MazeLayout, toWorld).remainingPellets == 63
    ensures Cm.Create(PacmanConfig.MazeLayout, toWorld).remainingPowers == 4
    ensures |Initial().collectibles| == 67
  {
    PacmanConfig.LayoutCells();
  }

  /** The game is over exactly when no lives are left, and the player keeps
      its invariant. */
  predicate Inv(g: Game)
  {
    (g.gameOver <==> g.lives <= 0) && Pl.Inv(g.player)
  }

  /** `handleInput`: keys reach the player only while the game runs. */
  function HandleInput(g: Game, key: string): (r: Game)
    ensures g.gameOver ==> r == g
    ensures !g.gameOver ==> r == g.(player := Pl.HandleInput(g.player, key))
    ensures Inv(g) ==> Inv(r)
  {
    if g.gameOver then g else g.(player := Pl.HandleInput(g.player, key))
  }

  /** `activatePowerMode`: power mode on and every ghost frightened. */
  function ActivatePowerMode(g: Game): (r: Game)
    ensures r.powerMode && |r.ghosts| == |g.ghosts|
    ensures forall i :: 0 <= i < |r.ghosts| ==> r.ghosts[i] == Gh.SetFrightened(g.ghosts[i], true)
    ensures forall i :: 0 <= i < |r.ghosts| ==> r.ghosts[i].pos == g.ghosts[i].pos
    ensures r.(powerMode := g.powerMode, ghosts := g.ghosts) == g
  {
    g.(powerMode := true, ghosts := seq(|g.ghosts|, i requires 0 <= i < |g.ghosts| => Gh.SetFrightened(g.ghosts[i], true)))
  }

  /** The timer callback ten seconds later: power mode off, ghosts calm. */
  function EndPowerMode(g: Game): (r: Game)
    ensures !r.powerMode && |r.ghosts| == |g.ghosts|
    ensures forall i :: 0 <= i < |r.ghosts| ==> r.ghosts[i] == Gh.SetFrightened(g.ghosts[i], false)
    ensures r.(powerMode := g.powerMode, ghosts := g.ghosts) == g
  {
    g.(powerMode := false, ghosts := seq(|g.ghosts|, i requires 0 <= i < |g.ghosts| => Gh.SetFrightened(g.ghosts[i], false)))
  }

  /** Where `resetGhost` puts a ghost, from two draws. */
  function RespawnPos(rng: Rng, k: nat): Vec3
  {
    Vec3((rng(k) - 0.5) * RespawnSpan, 0.5, (rng(k + 1) - 0.5) * RespawnSpan)
  }

  /** With draws in [0, 1) a respawned ghost lands in [-5, 5) on x and z. */
  lemma RespawnInSquare(rng: Rng, k: nat)
    requires Gh.IsRoll(rng(k)) && Gh.IsRoll(rng(k + 1))
    ensures -5.0 <= RespawnPos(rng, k).x < 5.0 && -5.0 <= RespawnPos(rng, k).z < 5.0
    ensures RespawnPos(rng, k).y == 0.5
  {
  }

  /** `resetGhost` on ghost `i`: only its position changes. */
  function ResetGhost(g: Game, i: nat, rng: Rng): (r: Game)
    requires i < |g.ghosts|
    ensures r.ghosts == g.ghosts[i := g.ghosts[i].(pos := RespawnPos(rng, g.draws))]
    ensures r.draws == g.draws + 2
    ensures r.(ghosts := g.ghosts, draws := g.draws) == g
  {
    g.(ghosts := g.ghosts[i := g.ghosts[i].(pos := RespawnPos(rng, g.draws))], draws := g.draws + 2)
  }

  /** Every ghost reset in turn, ghost `j` using draws `2j` and `2j + 1`
      after the ones already used. */
  function ResetAllGhosts(g: Game, rng: Rng): (r: Game)
    ensures |r.ghosts| == |g.ghosts| && r.draws == g.draws + 2 * |g.ghosts|
    ensures forall j :: 0 <= j < |g.ghosts| ==> r.ghosts[j] == g.ghosts[j].(pos := RespawnPos(rng, g.draws + 2 * j))
    ensures r.(ghosts := g.ghosts, draws := g.draws) == g
  {
    g.(ghosts := seq(|g.ghosts|, j requires 0 <= j < |g.ghosts| => g.ghosts[j].(pos := RespawnPos(rng, g.draws + 2 * j))),
       draws := g.draws + 2 * |g.ghosts|)
  }

  /** `handlePlayerDeath`: one life less; with none left the game is over and
      nothing else moves, otherwise the player returns to the centre at rest
      and every ghost is respawned. */
  function PlayerDeath(g: Game, rng: Rng): (r: Game)
    ensures r.lives == g.lives - 1 && r.score == g.score && r.powerMode == g.powerMode
    ensures r.gameOver == (g.gameOver || r.lives <= 0)
    ensures |r.ghosts| == |g.ghosts| && r.collectibles == g.collectibles
    ensures r.lives <= 0 ==> r == g.(lives := r.lives, gameOver := true)
    ensures r.lives > 0 ==>
      && r.player == g.player.(pos := Pl.StartPos, velocity := Zero)
      && r == ResetAllGhosts(g, rng).(lives := r.lives, player := r.player)
    ensures Inv(g) ==> Inv(r)
  {
    var lives := g.lives - 1;
    if lives <= 0 then g.(lives := lives, gameOver := true)
    else
      var h := ResetAllGhosts(g, rng);
      h.(lives := lives, player := g.player.(pos := Pl.StartPos, velocity := Zero))
  }

  /** One ghost touching the player: eaten in power mode, fatal otherwise. */
  function Touch(g: Game, i: nat, rng: Rng): (r: Game)
    requires i < |g.ghosts|
    ensures |r.ghosts| == |g.ghosts| && r.powerMode == g.powerMode && r.collectibles == g.collectibles
    ensures g.powerMode ==> r.score == g.score + PacmanConfig.GhostScore && r.lives == g.lives
    ensures !g.powerMode ==> r.score == g.score && r.lives == g.lives - 1
    ensures Inv(g) ==> Inv(r)
  {
    if g.powerMode then ResetGhost(g.(score := g.score + PacmanConfig.GhostScore), i, rng)
    else PlayerDeath(g, rng)
  }

  /** A ghost within reach of position `p`. */
  predicate Touching(p: Vec3, gh: Gh.Ghost)
  {
    DistSq(p, gh.pos) < ContactDistSq
  }

  /** Some ghost from index `i` on is within reach of `p`. */
  predicate AnyTouching(p: Vec3, ghosts: seq<Gh.Ghost>, i: nat)
  {
    exists j :: i <= j < |ghosts| && Touching(p, ghosts[j])
  }

  /** The ghost pass of `checkCollisions` from ghost `i` on: each ghost in
      turn is compared with the player where earlier contacts left both.
      With no ghost in reach nothing happens; with one in reach the player
      loses a life, or in power mode gains at least one ghost's points. */
  function GhostContacts(g: Game, i: nat, rng: Rng): (r: Game)
    ensures |r.ghosts| == |g.ghosts| && r.powerMode == g.powerMode && r.collectibles == g.collectibles
    ensures r.score >= g.score && r.lives <= g.lives
    ensures g.powerMode ==> r.lives == g.lives && (r.score - g.score) % PacmanConfig.GhostScore == 0
    ensures !g.powerMode ==> r.score == g.score
    ensures !AnyTouching(g.player.pos, g.ghosts, i) ==> r == g
    ensures r.lives < g.lives <==> !g.powerMode && AnyTouching(g.player.pos, g.ghosts, i)
    ensures r.score >= g.score + PacmanConfig.GhostScore <==> g.powerMode && AnyTouching(g.player.pos, g.ghosts, i)
    ensures Inv(g) ==> Inv(r)
    decreases |g.ghosts| - i
  {
    if i >= |g.ghosts| then g
    else
      var next := if Touching(g.player.pos, g.ghosts[i]) then Touch(g, i, rng) else g;
      assert !Touching(g.player.pos, g.ghosts[i]) ==>
        (AnyTouching(g.player.pos, g.ghosts, i) <==> AnyTouching(g.player.pos, g.ghosts, i + 1));
      GhostContacts(next, i + 1, rng)
  }

  predicate Near(c: Collectible, p: Vec3)
  {
    DistSq(p, c.pos) < PickupDistSq
  }

  /** The collectible pass of `checkCollisions`: every collectible within
      reach of `p` is removed, its value gained, and a power pellet among
      them switches power mode on. The pass runs from the end of the list so
      that removing one does not skip the next; as `p` stays fixed, the
      outcome is the same as a front-to-back filter. */
  function Sweep(items: seq<Collectible>, p: Vec3): (r: (seq<Collectible>, nat, bool))
    ensures |r.0| <= |items|
    decreases |items|
  {
    if |items| == 0 then ([], 0, false)
    else
      var last := items[|items| - 1];
      var rest := Sweep(items[..|items| - 1], p);
      if Near(last, p) then (rest.0, rest.1 + Value(last), rest.2 || last.kind == PowerPelletItem)
      else (rest.0 + [last], rest.1, rest.2)
  }

  /** The sweep keeps its survivors in their original order. */
  lemma {:induction false} SweepKeepsOrder(items: seq<Collectible>, p: Vec3)
    ensures IsSubsequence(Sweep(items, p).0, items)
    decreases |items|
  {
    if |items| > 0 {
      var init := items[..|items| - 1];
      var last := items[|items| - 1];
      var rest := Sweep(init, p).0;
      SweepKeepsOrder(init, p);
      if !Near(last, p) {
        assert (rest + [last])[..|rest|] == rest;
      }
    }
  }

  /** The sweep keeps exactly the collectibles out of reach, each as often
      as it occurs. */
  lemma {:induction false} SweepKeepsFar(items: seq<Collectible>, p: Vec3)
    ensures forall c :: c in Sweep(items, p).0 ==> !Near(c, p)
    ensures forall i :: 0 <= i < |items| && !Near(items[i], p) ==> items[i] in Sweep(items, p).0
    ensures forall c :: multiset(Sweep(items, p).0)[c] == if Near(c, p) then 0 else multiset(items)[c]
    decreases |items|
  {
    if |items| > 0 {
      var init := items[..|items| - 1];
      SweepKeepsFar(init, p);
      assert forall i :: 0 <= i < |init| ==> init[i] == items[i];
      assert items == init + [items[|items| - 1]];
    }
  }

  /** The points gained and the points left add up to the points before; a
      power pellet was in reach exactly when the sweep reports one; and
      nothing was gained exactly when nothing was removed. */
  lemma {:induction false} SweepScores(items: seq<Collectible>, p: Vec3)
    ensures Sweep(items, p).1 + TotalValue(Sweep(items, p).0) == TotalValue(items)
    ensures Sweep(items, p).2 <==> PowerInReach(items, p)
    ensures Sweep(items, p).1 == 0 <==> Sweep(items, p).0 == items
    decreases |items|
  {
    if |items| > 0 {
      var init := items[..|items| - 1];
      var last := items[|items| - 1];
      var rest := Sweep(init, p);
      SweepScores(init, p);
      assert forall i :: 0 <= i < |init| ==> init[i] == items[i];
      assert items == init + [last];
      if !Near(last, p) {
        assert (rest.0 + [last])[..|rest.0|] == rest.0;
      }
    }
  }

  /** With nothing in reach the sweep changes nothing. */
  lemma {:induction false} SweepFarIsIdentity(items: seq<Collectible>, p: Vec3)
    requires forall i :: 0 <= i < |items| ==> !Near(items[i], p)
    ensures Sweep(items, p) == (items, 0, false)
    decreases |items|
  {
    if |items| > 0 {
      var init := items[..|items| - 1];
      assert forall i :: 0 <= i < |init| ==> init[i] == items[i];
      SweepFarIsIdentity(init, p);
      assert init + [items[|items| - 1]] == items;
    }
  }

  /** A second sweep at the same spot finds nothing. */
  lemma SweepIdempotent(items: seq<Collectible>, p: Vec3)
    ensures Sweep(Sweep(items, p).0, p) == (Sweep(items, p).0, 0, false)
  {
    var kept := Sweep(items, p).0;
    SweepKeepsFar(items, p);
    assert forall i :: 0 <= i < |kept| ==> kept[i] in kept;
    SweepFarIsIdentity(kept, p);
  }

  /** Bob every collectible to height 0.5 plus the shared wave, as
      `Collectible.update` does for all of them with the same clock. */
  function Bob(items: seq<Collectible>, wave: real): (r: seq<Collectible>)
    ensures |r| == |items|
    ensures forall i :: 0 <= i < |r| ==> r[i] == items[i].(pos := items[i].pos.(y := 0.5 + wave * 0.1))
    ensures TotalValue(r) == TotalValue(items)
    decreases |items|
  {
    if |items| == 0 then []
    else
      var init := items[..|items| - 1];
      var r := Bob(init, wave) + [items[|items| - 1].(pos := items[|items| - 1].pos.(y := 0.5 + wave * 0.1))];
      assert r[..|r| - 1] == Bob(init, wave);
      r
  }

  predicate PowerInReach(items: seq<Collectible>, p: Vec3)
  {
    exists i :: 0 <= i < |items| && Near(items[i], p) && items[i].kind == PowerPelletItem
  }

  /** The pick-up part of `checkCollisions` at the player's position:
      everything within reach is removed and its points gained, everything
      else is kept in order, and power mode comes on if a power pellet was
      among what was removed. */
  function PickUp(g: Game): (r: Game)
    ensures r.score == g.score + (TotalValue(g.collectibles) - TotalValue(r.collectibles))
    ensures TotalValue(r.collectibles) <= TotalValue(g.collectibles)
    ensures IsSubsequence(r.collectibles, g.collectibles)
    ensures forall c :: multiset(r.collectibles)[c] == if Near(c, g.player.pos) then 0 else multiset(g.collectibles)[c]
    ensures r.powerMode <==> (g.powerMode || PowerInReach(g.collectibles, g.player.pos))
    ensures r.lives == g.lives && r.gameOver == g.gameOver && r.player == g.player && |r.ghosts| == |g.ghosts|
    ensures forall j :: 0 <= j < |g.ghosts| ==> r.ghosts[j].pos == g.ghosts[j].pos
  {
    SweepKeepsOrder(g.collectibles, g.player.pos);
    SweepKeepsFar(g.collectibles, g.player.pos);
    SweepScores(g.collectibles, g.player.pos);
    var sw := Sweep(g.collectibles, g.player.pos);
    var h := g.(collectibles := sw.0, score := g.score + sw.1);
    if sw.2 then ActivatePowerMode(h) else h
  }

  /** The wall part of `checkCollisions`: the player is pushed out of the
      walls and clamped to the maze; nothing else changes. */
  function ResolveWalls(g: Game, push: Mz.Push): (r: Game)
    ensures r == g.(player := r.player)
    ensures r.player == g.player.(pos := Mz.CheckCollision(PacmanConfig.MazeLayout, g.player.pos, push).0)
    ensures Inv(g) ==> Inv(r)
  {
    var moved := Mz.CheckCollision(PacmanConfig.MazeLayout, g.player.pos, push).0;
    g.(player := g.player.(pos := moved))
  }

  /** Where the wall push leaves the player. */
  function Pushed(g: Game, push: Mz.Push): Vec3
  {
    Mz.CheckCollision(PacmanConfig.MazeLayout, g.player.pos, push).0
  }

  /** `checkCollisions`: the maze pushes the player out of walls, then the
      collectibles within reach of the pushed position are picked up, then
      the ghosts are met there. The points gained are those of the
      collectibles picked up plus, in power mode only, 200 per ghost eaten.
      `CheckCollisionsRules` states which collectibles go and when a ghost
      costs a life. */
  function CheckCollisions(g: Game, push: Mz.Push, rng: Rng): (r: Game)
    ensures r.score >= g.score + (TotalValue(g.collectibles) - TotalValue(r.collectibles))
    ensures TotalValue(r.collectibles) <= TotalValue(g.collectibles)
    ensures !r.powerMode ==> r.score + TotalValue(r.collectibles) == g.score + TotalValue(g.collectibles)
    ensures r.powerMode ==> (r.score + TotalValue(r.collectibles) - g.score - TotalValue(g.collectibles)) % PacmanConfig.GhostScore == 0
    ensures g.powerMode ==> r.lives == g.lives
    ensures r.lives <= g.lives && |r.ghosts| == |g.ghosts|
    ensures IsSubsequence(r.collectibles, g.collectibles)
    ensures Inv(g) ==> Inv(r)
  {
    var g1 := ResolveWalls(g, push);
    var g2 := PickUp(g1);
    var r := GhostContacts(g2, 0, rng);
    assert r.score + TotalValue(r.collectibles) - g.score - TotalValue(g.collectibles) == r.score - g2.score;
    r
  }

  /** The rules of `checkCollisions` at the pushed position: exactly the
      collectibles within reach go (each copy of one out of reach stays),
      power mode comes on when a power pellet was among them, a life is lost
      exactly when a ghost is in reach outside power mode, and points beyond
      the pick-ups come exactly from a ghost in reach in power mode. */
  lemma CheckCollisionsRules(g: Game, push: Mz.Push, rng: Rng)
    ensures var r := CheckCollisions(g, push, rng);
      forall c :: multiset(r.collectibles)[c] == if Near(c, Pushed(g, push)) then 0 else multiset(g.collectibles)[c]
    ensures var r := CheckCollisions(g, push, rng);
      r.powerMode <==> g.powerMode || PowerInReach(g.collectibles, Pushed(g, push))
    ensures var r := CheckCollisions(g, push, rng);
      r.lives < g.lives <==> !r.powerMode && AnyTouching(Pushed(g, push), g.ghosts, 0)
    ensures var r := CheckCollisions(g, push, rng);
      r.score + TotalValue(r.collectibles) > g.score + TotalValue(g.collectibles) <==>
        r.powerMode && AnyTouching(Pushed(g, push), g.ghosts, 0)
  {
  }

  /** What one animation frame brings: the ghosts' step (which the game, as
      written, cannot supply), the shared bob of the collectibles, the wall
      push and the random stream. */
  datatype Frame = Frame(ghostStep: Gh.Ghost -> Gh.Ghost, wave: real, push: Mz.Push, rng: Rng)

  /** The movement part of a frame: the player glides, every ghost takes its
      step and the collectibles bob; nothing else changes. */
  function Advance(g: Game, f: Frame): (r: Game)
    ensures r == g.(player := r.player, ghosts := r.ghosts, collectibles := r.collectibles)
    ensures r.player == Pl.Update(g.player)
    ensures |r.ghosts| == |g.ghosts| && forall i :: 0 <= i < |g.ghosts| ==> r.ghosts[i] == f.ghostStep(g.ghosts[i])
    ensures r.collectibles == Bob(g.collectibles, f.wave)
  {
    g.(
      player := Pl.Update(g.player),
      ghosts := seq(|g.ghosts|, i requires 0 <= i < |g.ghosts| => f.ghostStep(g.ghosts[i])),
      collectibles := Bob(g.collectibles, f.wave))
  }

  /** `update`: nothing once the game is over; otherwise move the player,
      step the ghosts, bob the collectibles and check collisions. */
  function Update(g: Game, f: Frame): (r: Game)
    ensures g.gameOver ==> r == g
    ensures !g.gameOver ==> r == CheckCollisions(Advance(g, f), f.push, f.rng)
    ensures r.score >= g.score && r.lives <= g.lives
    ensures !g.gameOver && g.powerMode ==> r.lives == g.lives
    ensures |r.ghosts| == |g.ghosts| && |r.collectibles| <= |g.collectibles|
    ensures Inv(g) ==> Inv(r)
  {
    if g.gameOver then g
    else
      Pl.UpdateKeepsInvIf(g.player);
      var g1 := Advance(g, f);
      var r := CheckCollisions(g1, f.push, f.rng);
      SubsequenceElements(r.collectibles, g1.collectibles);
      r
  }

  /** Game over is final: neither input nor frames change anything. */
  lemma GameOverIsFinal(g: Game, key: string, f: Frame)
    requires g.gameOver
    ensures HandleInput(g, key) == g && Update(g, f) == g
  {
  }

  /** In power mode the player cannot lose a life, whatever the ghosts do. */
  lemma PowerModeProtects(g: Game, f: Frame)
    requires g.powerMode
    ensures Update(g, f).lives == g.lives
  {
  }
}
