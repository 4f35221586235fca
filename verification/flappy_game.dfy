/** The game state machine of the scrolling flappy game
    (3d-flappy-bird/src/systems/Game.js): idle, running, paused and game over,
    in classic or practice mode, with the per-frame simulation that moves the
    bird and the pipes, scores each pair once and ends the game on a
    collision. The frame length comes from the rendering library's clock and
    is a parameter, as are the spawner's random offset and the collision test
    between the bird's mesh and the pipes' meshes (the library's bounding-box
    computation). Scene construction, overlay updates and sounds are not
    modelled. */
module FlappyGame {
  import opened Basics
  import opened Storage
  import opened FlappyConfig
  import SM = ScoreManager
  import B = Bird
  import PP = PipePair
  import PS = PipeSpawner
  import Geometry

  datatype Game = Game(state: GameState, mode: GameMode, scores: SM.Scores, store: Store, bird: B.Bird, spawner: PS.Spawner)

  /** What every reachable game satisfies: a multiplier within its cap, a
      best score matching the store, a bird in flight, pipes placed around
      their gap. */
  predicate Inv(g: Game)
  {
    && SM.Valid(g.scores)
    && SM.Persisted(g.scores, g.store)
    && B.InFlight(g.bird)
    && PS.AllPlaced(g.spawner.pipes)
  }

  /** The constructor: idle in classic mode with the persisted best score;
      `None` when the stored best score is not a plain decimal number. */
  function Create(store: Store): (r: Option<Game>)
    ensures r.Some? <==> SM.Create(store).Some?
    ensures r.Some? ==> r.value.state == Idle && r.value.mode == Classic
    ensures r.Some? ==> r.value.spawner.pipes == [] && r.value.scores.score == 0
    ensures r.Some? ==> Inv(r.value)
  {
    match SM.Create(store)
    case None => None
    case Some(scores) =>
      Some(Game(Idle, Classic, scores, store, B.Reset(B.Bird(0.0, 0, Geometry.Zero)), PS.Empty))
  }

  /** Start a session in `mode` unless one is already running: the score,
      the bird and the spawner all restart. */
  function Start(g: Game, mode: GameMode): (r: Game)
    ensures g.state == Running ==> r == g
    ensures g.state != Running ==> r.state == Running && r.mode == mode
    ensures g.state != Running ==>
      && r.scores.score == 0 && r.scores.combo == 0 && r.scores.multiplier == 1
      && r.scores.best == g.scores.best && r.store == g.store
      && r.bird.pos == B.StartPos && r.bird.velocity == 0.0
      && r.spawner.pipes == [] && r.spawner.lastSpawn == 0.0
    ensures Inv(g) ==> Inv(r)
  {
    if g.state == Running then g
    else g.(state := Running, mode := mode, scores := SM.Reset(g.scores), bird := B.Reset(g.bird), spawner := PS.Reset(g.spawner))
  }

  /** Running and paused swap; idle and game over ignore the request. */
  function TogglePause(g: Game): (r: Game)
    ensures g.state == Running ==> r.state == Paused
    ensures g.state == Paused ==> r.state == Running
    ensures g.state != Running && g.state != Paused ==> r == g
    ensures r.(state := g.state) == g
  {
    if g.state == Running then g.(state := Paused)
    else if g.state == Paused then g.(state := Running)
    else g
  }

  lemma TogglePauseTwice(g: Game)
    ensures TogglePause(TogglePause(g)) == g
  {
  }

  /** A flap reaches the bird only while running. */
  function Flap(g: Game): (r: Game)
    ensures g.state != Running ==> r == g
    ensures g.state == Running ==> r == g.(bird := B.Flap(g.bird))
    ensures Inv(g) ==> Inv(r)
  {
    if g.state != Running then g else g.(bird := B.Flap(g.bird))
  }

  function HandleGameOver(g: Game): (r: Game)
    ensures r.state == GameOver && r.(state := g.state) == g
  {
    g.(state := GameOver)
  }

  /** Pipes narrow as the score grows, one twelfth of the score up to 3.2,
      and never in practice mode. */
  function DifficultyOffset(mode: GameMode, score: nat): (d: real)
    ensures mode == Practice ==> d == 0.0
    ensures 0.0 <= d <= MaxDifficulty
    ensures mode == Classic && score as real <= 38.4 ==> d == score as real / 12.0
    ensures mode == Classic && score as real >= 38.4 ==> d == MaxDifficulty
  {
    if mode == Practice then 0.0 else Clamp(score as real / 12.0, 0.0, MaxDifficulty)
  }

  lemma DifficultyMonotone(mode: GameMode, a: nat, b: nat)
    requires a <= b
    ensures DifficultyOffset(mode, a) <= DifficultyOffset(mode, b)
  {
  }

  /** A pair not yet scored that the bird has passed. */
  predicate Eligible(p: PP.PipePair, bird: B.Bird)
  {
    !p.scored && p.x < bird.pos.x
  }

  /** The bird passed close to the middle of the gap. */
  predicate CleanPass(p: PP.PipePair, bird: B.Bird)
  {
    Abs(p.offset - bird.pos.y) < p.gapSize * 0.3
  }

  function CountEligible(ps: seq<PP.PipePair>, bird: B.Bird): (n: nat)
    ensures n <= |ps|
    ensures n == 0 <==> forall i :: 0 <= i < |ps| ==> !Eligible(ps[i], bird)
  {
    if |ps| == 0 then 0
    else (if Eligible(ps[0], bird) then 1 else 0) + CountEligible(ps[1..], bird)
  }

  datatype Scored = Scored(pipes: seq<PP.PipePair>, scores: SM.Scores, store: Store)

  /** The `forEach` over the pairs in list order: every eligible pair adds a
      point (clean or not) and is marked scored. */
  function ScorePipes(ps: seq<PP.PipePair>, bird: B.Bird, scores: SM.Scores, store: Store, track: bool): (r: Scored)
    ensures |r.pipes| == |ps|
    ensures forall i :: 0 <= i < |ps| ==> r.pipes[i] == ps[i].(scored := ps[i].scored || ps[i].x < bird.pos.x)
    ensures CountEligible(ps, bird) == 0 ==> r.scores == scores && r.store == store
    decreases |ps|
  {
    if |ps| == 0 then Scored([], scores, store)
    else
      var p := ps[0];
      var (scores1, store1) :=
        if Eligible(p, bird) then
          var o := SM.AddPoint(scores, store, CleanPass(p, bird), track);
          SM.AddPointKeepsPersisted(scores, store, CleanPass(p, bird), track);
          (o.scores, o.store)
        else (scores, store);
      var rest := ScorePipes(ps[1..], bird, scores1, store1, track);
      Scored([p.(scored := p.scored || p.x < bird.pos.x)] + rest.pipes, rest.scores, rest.store)
  }

  /** Every eligible pair adds between one and five points; the best score
      never drops, moves only when tracked, and stays persisted. */
  lemma {:induction false} ScorePipesScores(ps: seq<PP.PipePair>, bird: B.Bird, scores: SM.Scores, store: Store, track: bool)
    ensures var r := ScorePipes(ps, bird, scores, store, track);
      SM.Valid(scores) ==> SM.Valid(r.scores)
    ensures var r := ScorePipes(ps, bird, scores, store, track);
      SM.Valid(scores) ==>
        scores.score + CountEligible(ps, bird) <= r.scores.score <= scores.score + 5 * CountEligible(ps, bird)
    ensures var r := ScorePipes(ps, bird, scores, store, track);
      r.scores.best >= scores.best
    ensures var r := ScorePipes(ps, bird, scores, store, track);
      !track ==> r.scores.best == scores.best && r.store == store
    ensures var r := ScorePipes(ps, bird, scores, store, track);
      SM.Persisted(scores, store) ==> SM.Persisted(r.scores, r.store)
    decreases |ps|
  {
    if |ps| > 0 {
      var p := ps[0];
      if Eligible(p, bird) {
        var o := SM.AddPoint(scores, store, CleanPass(p, bird), track);
        SM.AddPointKeepsPersisted(scores, store, CleanPass(p, bird), track);
        ScorePipesScores(ps[1..], bird, o.scores, o.store, track);
      } else {
        ScorePipesScores(ps[1..], bird, scores, store, track);
      }
    }
  }

  /** Scoring only marks pairs, so placed pairs stay placed. */
  lemma ScoredStillPlaced(ps: seq<PP.PipePair>, bird: B.Bird, scores: SM.Scores, store: Store, track: bool)
    ensures PS.AllPlaced(ps) ==> PS.AllPlaced(ScorePipes(ps, bird, scores, store, track).pipes)
  {
    var r := ScorePipes(ps, bird, scores, store, track).pipes;
    if PS.AllPlaced(ps) {
      forall p | p in r ensures PP.Placed(p) {
        var i :| 0 <= i < |r| && r[i] == p;
        assert ps[i] in ps;
      }
    }
  }

  /** A single eligible pair calls `addPoint` once, with a clean pass when the
      bird is within 30% of the gap from the pair's offset. */
  lemma ScoreOnePipe(p: PP.PipePair, bird: B.Bird, scores: SM.Scores, store: Store, track: bool)
    requires Eligible(p, bird)
    ensures
      var o := SM.AddPoint(scores, store, Abs(p.offset - bird.pos.y) < p.gapSize * 0.3, track);
      var r := ScorePipes([p], bird, scores, store, track);
      r.scores == o.scores && r.store == o.store && r.pipes == [p.(scored := true)]
  {
    assert [p][1..] == [];
  }

  /** Scoring again with the same bird changes nothing: each pair is scored
      at most once. */
  lemma ScorePipesOnce(ps: seq<PP.PipePair>, bird: B.Bird, scores: SM.Scores, store: Store, track: bool, scores2: SM.Scores, store2: Store)
    ensures
      var r := ScorePipes(ps, bird, scores, store, track);
      var r2 := ScorePipes(r.pipes, bird, scores2, store2, track);
      r2.pipes == r.pipes && r2.scores == scores2 && r2.store == store2
  {
    var r := ScorePipes(ps, bird, scores, store, track);
    assert forall i :: 0 <= i < |r.pipes| ==> !Eligible(r.pipes[i], bird);
    var r2 := ScorePipes(r.pipes, bird, scores2, store2, track);
    assert forall i :: 0 <= i < |r.pipes| ==> r2.pipes[i] == r.pipes[i];
  }

  /** `#updateGame`: move the bird, run the spawner at the current
      difficulty, score the pairs the bird has passed, and outside practice end
      the game when `hits` reports a collision. */
  function UpdateGame(g: Game, delta: real, offset: real, hits: (B.Bird, seq<PP.PipePair>) -> bool): (r: Game)
    ensures r.mode == g.mode
    ensures r.bird == B.Update(g.bird, delta)
    ensures var sp := PS.Update(g.spawner, delta, DifficultyOffset(g.mode, g.scores.score), offset);
      var st := ScorePipes(sp.pipes, r.bird, g.scores, g.store, g.mode == Classic);
      r.spawner == sp.(pipes := st.pipes) && r.scores == st.scores && r.store == st.store
    ensures r.state == GameOver <==> g.state == GameOver || (g.mode == Classic && hits(r.bird, r.spawner.pipes))
    ensures r.state != GameOver ==> r.state == g.state
    ensures r.scores.best >= g.scores.best
    ensures g.mode == Practice ==> r.scores.best == g.scores.best && r.store == g.store
    ensures Inv(g) ==> Inv(r)
  {
    var bird := B.Update(g.bird, delta);
    var practice := g.mode == Practice;
    var d := DifficultyOffset(g.mode, g.scores.score);
    var sp := PS.Update(g.spawner, delta, d, offset);
    var st := ScorePipes(sp.pipes, bird, g.scores, g.store, !practice);
    ScorePipesScores(sp.pipes, bird, g.scores, g.store, !practice);
    ScoredStillPlaced(sp.pipes, bird, g.scores, g.store, !practice);
    var next := g.(bird := bird, spawner := sp.(pipes := st.pipes), scores := st.scores, store := st.store);
    if !practice && hits(bird, st.pipes) then HandleGameOver(next) else next
  }

  /** The animation-frame callback: the simulation runs only while running,
      and the only state it can move to is game over, which needs a
      collision in classic mode. */
  function Loop(g: Game, delta: real, offset: real, hits: (B.Bird, seq<PP.PipePair>) -> bool): (r: Game)
    ensures g.state != Running ==> r == g
    ensures g.state == Running ==> r.bird == B.Update(g.bird, delta)
    ensures g.state == Running ==>
      var sp := PS.Update(g.spawner, delta, DifficultyOffset(g.mode, g.scores.score), offset);
      var st := ScorePipes(sp.pipes, r.bird, g.scores, g.store, g.mode == Classic);
      r.spawner == sp.(pipes := st.pipes) && r.scores == st.scores && r.store == st.store
    ensures r.mode == g.mode
    ensures r.state == g.state || r.state == GameOver
    ensures r.state != g.state ==> g.state == Running && g.mode == Classic && hits(r.bird, r.spawner.pipes)
    ensures g.mode == Practice ==> r.state == g.state
    ensures r.scores.best >= g.scores.best
    ensures Inv(g) ==> Inv(r)
  {
    if g.state == Running then UpdateGame(g, delta, offset, hits) else g
  }

  /** Every operation keeps the invariant, starting from the constructor. */
  lemma OperationsKeepInv(g: Game, mode: GameMode, delta: real, offset: real, hits: (B.Bird, seq<PP.PipePair>) -> bool)
    requires Inv(g)
    ensures Inv(Start(g, mode)) && Inv(TogglePause(g)) && Inv(Flap(g))
    ensures Inv(HandleGameOver(g)) && Inv(Loop(g, delta, offset, hits))
  {
  }
}
