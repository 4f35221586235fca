/** The earlier, frame-stepped flappy game (1_3d_flappy_bird_game/game.js).
    Each animation frame applies a fixed gravity step, maybe spawns a pair,
    then walks the pairs from last to first: scroll, score a pass keyed by the
    pair's id, test the hand-built collision boxes, and drop pairs far to the
    left. A pair is a group at (x, 0, 0) whose two children sit at x = 10
    inside it; spawning, passing and removal look at the group's x, the
    collision boxes at the children's world position. The random spawn roll,
    the random gap height and the `Date.now()` id are parameters of a frame;
    the bird's scale comes from the chosen character model. DOM updates and
    bird rotation are not modelled. */
module LegacyFlappy {
  import opened Basics
  import opened Geometry
  import HS = HighScores

  const ScrollStep: real := 0.05
  /** -0.02 * 0.6, applied once per frame. */
  const GravityStep: real := -0.012
  /** 0.5 * 0.6, the velocity a jump sets. */
  const JumpForce: real := 0.3
  const SpawnRate: real := 0.005
  const MinPipeDistance: real := 15.0
  const MinY: real := -10.0
  const MaxY: real := 10.0
  const PipeGap: real := 6.0
  /** The children's x inside their group. */
  const ChildX: real := 10.0
  /** Half the height of a 20-unit pipe box. */
  const PipeHalfHeight: real := 10.0
  const PipeHalfWidth: real := 0.45
  const RemoveX: real := -15.0
  const BirdStart: Vec3 := Vec3(-5.0, 0.0, 0.0)

  /** A pair: the group's x, its id, and the heights of the two children. */
  datatype Pipe = Pipe(x: real, id: int, topY: real, bottomY: real)

  datatype Legacy = Legacy(
    bird: Vec3,
    scale: Vec3,
    velocity: real,
    running: bool,
    pipes: seq<Pipe>,
    score: int,
    passed: set<int>,
    lastPipePosition: real,
    lastPipeTime: real,
    highScores: seq<HS.Entry>,
    promptName: bool)

  /** One frame's random inputs: the spawn roll and the gap-height roll, both
      `Math.random()` values, and the id `Date.now()` would give. */
  datatype Frame = Frame(spawnRoll: real, heightRoll: real, id: int)

  /** Every point counted belongs to exactly one passed id. */
  predicate Inv(g: Legacy)
  {
    g.score == |g.passed|
  }

  /** The bottom edge of the top pipe. */
  function GapTop(p: Pipe): real
  {
    p.topY - PipeHalfHeight
  }

  /** The top edge of the bottom pipe. */
  function GapBottom(p: Pipe): real
  {
    p.bottomY + PipeHalfHeight
  }

  /** The gap centre drawn from a roll in [0, 1). */
  function GapCentre(roll: real): (h: real)
    requires 0.0 <= roll < 1.0
    ensures -4.0 <= h < 4.0
  {
    roll * (4.0 - -4.0) + -4.0
  }

  /** `createPipe`: a pair at group x = 0 whose opening is the fixed gap,
      centred on the rolled height, appended at the end. */
  function CreatePipe(g: Legacy, roll: real, id: int): (r: Legacy)
    requires 0.0 <= roll < 1.0
    ensures |r.pipes| == |g.pipes| + 1 && r.pipes[..|g.pipes|] == g.pipes
    ensures var p := r.pipes[|g.pipes|];
      && p.x == 0.0 && p.id == id
      && GapTop(p) - GapBottom(p) == PipeGap
      && -4.0 <= (GapTop(p) + GapBottom(p)) / 2.0 < 4.0
    ensures r.(pipes := g.pipes, lastPipePosition := g.lastPipePosition) == g
    ensures r.lastPipePosition == ChildX
  {
    var h := GapCentre(roll);
    var p := Pipe(0.0, id, h + PipeGap / 2.0 + 10.0, h - PipeGap / 2.0 - 10.0);
    g.(pipes := g.pipes + [p], lastPipePosition := ChildX)
  }

  /** A jump sets the velocity outright, and only while running. */
  function Jump(g: Legacy): (r: Legacy)
    ensures !g.running ==> r == g
    ensures g.running ==> r.velocity == JumpForce && r.(velocity := g.velocity) == g
  {
    if g.running then g.(velocity := JumpForce) else g
  }

  /** `resetGame`: bird back at the start, at rest, no pairs, no score, no
      passed ids. The running flag is left to the caller. */
  function ResetGame(g: Legacy): (r: Legacy)
    ensures r.bird == BirdStart && r.velocity == 0.0
    ensures r.pipes == [] && r.score == 0 && r.passed == {}
    ensures r.running == g.running && r.highScores == g.highScores
    ensures Inv(r)
  {
    g.(bird := BirdStart, velocity := 0.0, pipes := [], score := 0, passed := {}, lastPipeTime := 0.0)
  }

  /** `startGame`: reset, then run. */
  function StartGame(g: Legacy): (r: Legacy)
    ensures r.running && r == ResetGame(g).(running := true)
  {
    ResetGame(g).(running := true)
  }

  /** `gameOver`: stop, and ask for a name when the score would enter the
      high-score table. */
  function GameOver(g: Legacy): (r: Legacy)
    ensures !r.running
    ensures r.promptName == HS.IsHighScore(g.highScores, g.score)
    ensures r.(running := g.running, promptName := g.promptName) == g
  {
    g.(running := false, promptName := HS.IsHighScore(g.highScores, g.score))
  }

  /** The bird's collision box: 0.4 of its scale either side of its centre. */
  function BirdBox(bird: Vec3, scale: Vec3): Box3
  {
    BoxAround(bird, Scale(scale, 0.4))
  }

  /** The collision box of a child at height `y` inside a group at `x`. */
  function ChildBox(x: real, y: real): Box3
  {
    BoxAround(Add(Vec3(ChildX, y, 0.0), Vec3(x, 0.0, 0.0)), Vec3(1.0 * 0.45, 20.0 * 0.5, 1.0 * 0.45))
  }

  /** `checkCollision`: the bird's box meets either child's box. */
  predicate Collides(bird: Vec3, scale: Vec3, p: Pipe)
  {
    Intersects(BirdBox(bird, scale), ChildBox(p.x, p.topY))
    || Intersects(BirdBox(bird, scale), ChildBox(p.x, p.bottomY))
  }

  /** The collision in terms of centres: within reach horizontally and in
      depth, and vertically within reach of one of the two pipes. */
  lemma CollidesByCentres(bird: Vec3, scale: Vec3, p: Pipe)
    requires scale.x >= 0.0 && scale.y >= 0.0 && scale.z >= 0.0
    ensures Collides(bird, scale, p) <==>
      && Abs(bird.x - (p.x + ChildX)) <= PipeHalfWidth + 0.4 * scale.x
      && Abs(bird.z) <= PipeHalfWidth + 0.4 * scale.z
      && (|| Abs(bird.y - p.topY) <= PipeHalfHeight + 0.4 * scale.y
          || Abs(bird.y - p.bottomY) <= PipeHalfHeight + 0.4 * scale.y)
  {
    var h := Scale(scale, 0.4);
    var k := Vec3(1.0 * 0.45, 20.0 * 0.5, 1.0 * 0.45);
    CentredBoxesIntersect(bird, h, Add(Vec3(ChildX, p.topY, 0.0), Vec3(p.x, 0.0, 0.0)), k);
    CentredBoxesIntersect(bird, h, Add(Vec3(ChildX, p.bottomY, 0.0), Vec3(p.x, 0.0, 0.0)), k);
  }

  /** A bird whose box lies strictly inside the opening cannot collide. */
  lemma InsideGapIsSafe(bird: Vec3, scale: Vec3, p: Pipe)
    requires scale.y >= 0.0
    requires GapBottom(p) < bird.y - 0.4 * scale.y && bird.y + 0.4 * scale.y < GapTop(p)
    ensures !Collides(bird, scale, p)
  {
  }

  /** The spawn distance test, on the last pair's group x. */
  predicate SpawnGate(pipes: seq<Pipe>)
  {
    |pipes| == 0 || pipes[|pipes| - 1].x < ChildX - MinPipeDistance
  }

  /** Spawn when the roll falls under the spawn rate and the gate is open. */
  function Spawn(g: Legacy, f: Frame): (r: Legacy)
    requires 0.0 <= f.heightRoll < 1.0
    ensures f.spawnRoll < SpawnRate && SpawnGate(g.pipes) ==> r == CreatePipe(g, f.heightRoll, f.id)
    ensures !(f.spawnRoll < SpawnRate && SpawnGate(g.pipes)) ==> r == g
    ensures |r.pipes| <= |g.pipes| + 1 && r.pipes[..|g.pipes|] == g.pipes
  {
    if f.spawnRoll < SpawnRate && SpawnGate(g.pipes) then CreatePipe(g, f.heightRoll, f.id) else g
  }

  /** The pass test: the group has moved a unit left of the bird, its id has
      not been counted, and the bird is strictly inside the opening. */
  predicate Passes(p: Pipe, bird: Vec3, passed: set<int>)
  {
    && p.x + 0.5 < bird.x - 0.5
    && p.id !in passed
    && bird.y < GapTop(p) && bird.y > GapBottom(p)
  }

  datatype Sweep = Sweep(pipes: seq<Pipe>, score: int, passed: set<int>, hit: bool)

  /** The backwards loop over the pairs. Each is scrolled, maybe counted, and
      checked against the bird; a collision stops the loop, leaving the earlier pairs unmoved;
      otherwise a pair left of the removal line is spliced out. */
  function SweepPipes(ps: seq<Pipe>, bird: Vec3, scale: Vec3, score: int, passed: set<int>): (r: Sweep)
    ensures passed <= r.passed
    ensures r.score == score + |r.passed| - |passed|
    ensures r.score >= score
    ensures |r.pipes| <= |ps|
    decreases |ps|
  {
    if |ps| == 0 then Sweep([], score, passed, false)
    else
      var init := ps[..|ps| - 1];
      var p := ps[|ps| - 1].(x := ps[|ps| - 1].x - ScrollStep);
      var pass := Passes(p, bird, passed);
      var score1 := if pass then score + 1 else score;
      var passed1 := if pass then passed + {p.id} else passed;
      assert pass ==> |passed1| == |passed| + 1;
      if Collides(bird, scale, p) then Sweep(init + [p], score1, passed1, true)
      else
        var rest := SweepPipes(init, bird, scale, score1, passed1);
        Sweep(rest.pipes + (if p.x < RemoveX then [] else [p]), rest.score, rest.passed, rest.hit)
  }

  /** A sweep that hits nothing leaves only pairs right of the removal line. */
  lemma {:induction false} SweepKeepsRight(ps: seq<Pipe>, bird: Vec3, scale: Vec3, score: int, passed: set<int>)
    ensures var r := SweepPipes(ps, bird, scale, score, passed);
      !r.hit ==> forall q :: q in r.pipes ==> q.x >= RemoveX
    decreases |ps|
  {
    if |ps| > 0 {
      var p := ps[|ps| - 1].(x := ps[|ps| - 1].x - ScrollStep);
      var pass := Passes(p, bird, passed);
      if !Collides(bird, scale, p) {
        SweepKeepsRight(ps[..|ps| - 1], bird, scale,
          if pass then score + 1 else score, if pass then passed + {p.id} else passed);
      }
    }
  }

  /** A sweep that hits nothing scrolled every pair clear of the bird. */
  lemma {:induction false} SweepMissesAll(ps: seq<Pipe>, bird: Vec3, scale: Vec3, score: int, passed: set<int>)
    ensures var r := SweepPipes(ps, bird, scale, score, passed);
      !r.hit ==> forall i :: 0 <= i < |ps| ==> !Collides(bird, scale, ps[i].(x := ps[i].x - ScrollStep))
    decreases |ps|
  {
    if |ps| > 0 {
      var init := ps[..|ps| - 1];
      var p := ps[|ps| - 1].(x := ps[|ps| - 1].x - ScrollStep);
      var pass := Passes(p, bird, passed);
      if !Collides(bird, scale, p) {
        SweepMissesAll(init, bird, scale,
          if pass then score + 1 else score, if pass then passed + {p.id} else passed);
        assert forall i :: 0 <= i < |init| ==> init[i] == ps[i];
      }
    }
  }

  /** A pair after this frame's scroll. */
  function Scrolled(p: Pipe): Pipe
  {
    p.(x := p.x - ScrollStep)
  }

  /** Only the ids of swept pairs that pass the bird, after their scroll,
      are ever added to the passed set. */
  lemma {:induction false} SweepCountsOwnIds(ps: seq<Pipe>, bird: Vec3, scale: Vec3, score: int, passed: set<int>)
    ensures forall id :: id in SweepPipes(ps, bird, scale, score, passed).passed && id !in passed ==>
      exists i :: 0 <= i < |ps| && ps[i].id == id && Passes(Scrolled(ps[i]), bird, passed)
    decreases |ps|
  {
    if |ps| > 0 {
      var init := ps[..|ps| - 1];
      var p := Scrolled(ps[|ps| - 1]);
      var pass := Passes(p, bird, passed);
      var score1 := if pass then score + 1 else score;
      var passed1 := if pass then passed + {p.id} else passed;
      if !Collides(bird, scale, p) {
        SweepCountsOwnIds(init, bird, scale, score1, passed1);
        var rest := SweepPipes(init, bird, scale, score1, passed1);
        forall id | id in rest.passed - passed
          ensures exists i :: 0 <= i < |ps| && ps[i].id == id && Passes(Scrolled(ps[i]), bird, passed)
        {
          if id in passed1 {
            assert ps[|ps| - 1].id == id && Passes(Scrolled(ps[|ps| - 1]), bird, passed);
          } else {
            assert id in rest.passed && id !in passed1;
            var i :| 0 <= i < |init| && init[i].id == id && Passes(Scrolled(init[i]), bird, passed1);
            assert ps[i] == init[i];
          }
        }
      } else {
        assert pass ==> ps[|ps| - 1].id == p.id && Passes(Scrolled(ps[|ps| - 1]), bird, passed);
      }
    }
  }

  /** A sweep that hits nothing counts every pair that passes the bird after
      its scroll. */
  lemma {:induction false} SweepCountsEveryPass(ps: seq<Pipe>, bird: Vec3, scale: Vec3, score: int, passed: set<int>)
    ensures var r := SweepPipes(ps, bird, scale, score, passed);
      !r.hit ==> forall i :: 0 <= i < |ps| && Passes(Scrolled(ps[i]), bird, passed) ==> ps[i].id in r.passed
    decreases |ps|
  {
    if |ps| > 0 {
      var init := ps[..|ps| - 1];
      var p := Scrolled(ps[|ps| - 1]);
      var pass := Passes(p, bird, passed);
      var score1 := if pass then score + 1 else score;
      var passed1 := if pass then passed + {p.id} else passed;
      if !Collides(bird, scale, p) {
        SweepCountsEveryPass(init, bird, scale, score1, passed1);
        var rest := SweepPipes(init, bird, scale, score1, passed1);
        forall i | 0 <= i < |ps| && Passes(Scrolled(ps[i]), bird, passed) && !rest.hit
          ensures ps[i].id in rest.passed
        {
          if i < |init| {
            assert ps[i] == init[i];
            if ps[i].id !in passed1 {
              assert Passes(Scrolled(init[i]), bird, passed1);
            }
          }
        }
      }
    }
  }

  /** One animation frame. */
  function Update(g: Legacy, f: Frame): (r: Legacy)
    requires 0.0 <= f.heightRoll < 1.0
    ensures !g.running ==> r == g
    ensures g.running ==> r.velocity == g.velocity + GravityStep && r.bird == g.bird.(y := g.bird.y + r.velocity)
    ensures g.running && (r.bird.y < MinY || r.bird.y > MaxY) ==>
      !r.running && r.pipes == g.pipes && r.score == g.score && r.passed == g.passed
    ensures r.running ==> forall q :: q in r.pipes ==> q.x >= RemoveX
    ensures r.running != g.running ==> r.promptName == HS.IsHighScore(g.highScores, r.score)
    ensures r.score - |r.passed| == g.score - |g.passed|
    ensures g.passed <= r.passed && g.score <= r.score
    ensures forall id :: id in r.passed && id !in g.passed ==>
      exists q :: q in Spawn(g.(velocity := r.velocity, bird := r.bird), f).pipes && q.id == id
        && Passes(Scrolled(q), r.bird, g.passed)
    ensures r.running ==> forall q :: q in Spawn(g.(velocity := r.velocity, bird := r.bird), f).pipes ==>
      Passes(Scrolled(q), r.bird, g.passed) ==> q.id in r.passed
    ensures Inv(g) ==> Inv(r)
  {
    if !g.running then g
    else
      var v := g.velocity + GravityStep;
      var g1 := g.(velocity := v, bird := g.bird.(y := g.bird.y + v));
      if g1.bird.y < MinY || g1.bird.y > MaxY then GameOver(g1)
      else
        var g2 := Spawn(g1, f);
        var sw := SweepPipes(g2.pipes, g1.bird, g2.scale, g2.score, g2.passed);
        SweepKeepsRight(g2.pipes, g1.bird, g2.scale, g2.score, g2.passed);
        SweepCountsOwnIds(g2.pipes, g1.bird, g2.scale, g2.score, g2.passed);
        SweepCountsEveryPass(g2.pipes, g1.bird, g2.scale, g2.score, g2.passed);
        var g3 := g2.(pipes := sw.pipes, score := sw.score, passed := sw.passed);
        if sw.hit then GameOver(g3) else g3
  }

  /** Each id is counted at most once, however many frames pass: a pair
      already counted never adds to the score again. */
  lemma CountedIdNeverRescored(p: Pipe, bird: Vec3, scale: Vec3, score: int, passed: set<int>)
    requires p.id in passed
    ensures SweepPipes([p], bird, scale, score, passed).score == score
    ensures SweepPipes([p], bird, scale, score, passed).passed == passed
  {
    assert [p][..0] == [];
  }
}
