/** The pipe spawner of the scrolling flappy game
    (3d-flappy-bird/src/systems/PipeSpawner.js): a millisecond timer that
    spawns one pair per interval, every pair scrolling left each frame, and
    pruning of pairs past the left edge. The random vertical offset
    (`randFloatSpread(8)`) is a parameter; the random colour and the scene
    bookkeeping are not modelled. */
module PipeSpawner {
  import opened Basics
  import opened FlappyConfig
  import opened Seqs
  import PP = PipePair

  datatype Spawner = Spawner(pipes: seq<PP.PipePair>, lastSpawn: real)

  /** The constructor's state, which `Reset` returns to. */
  const Empty: Spawner := Spawner([], 0.0)

  /** Drop every pair and restart the timer. */
  function Reset(s: Spawner): (r: Spawner)
    ensures r.pipes == [] && r.lastSpawn == 0.0
  {
    Empty
  }

  lemma ResetIdempotent(s: Spawner)
    ensures Reset(Reset(s)) == Reset(s)
  {
  }

  /** The gap for a difficulty offset: the base gap shrunk by the offset,
      clamped to [5, base + variation]. */
  function GapFor(difficulty: real): (g: real)
    ensures MinGap <= g <= GapBase + GapVariation
    ensures 0.0 <= difficulty <= MaxDifficulty ==> MinGap <= g <= GapBase
    ensures difficulty <= GapBase - MinGap && difficulty >= -GapVariation ==> g == GapBase - difficulty
  {
    Clamp(GapBase - difficulty, MinGap, GapBase + GapVariation)
  }

  /** At the largest difficulty the lower clamp gives the minimum gap. */
  lemma GapAtMaxDifficulty()
    ensures GapFor(MaxDifficulty) == MinGap
  {
  }

  /** The pair `#spawnPipe` creates, before it is appended. */
  function Fresh(difficulty: real, offset: real): (p: PP.PipePair)
    ensures p.x == SpawnDistance && p.z == -1.0 && !p.scored
    ensures p.gapSize == GapFor(difficulty) && p.offset == offset
    ensures PP.Placed(p)
  {
    PP.New(GapFor(difficulty), offset).(x := SpawnDistance, z := -1.0)
  }

  /** `#spawnPipe`: append one fresh pair at the end of the list. */
  function SpawnPipe(s: Spawner, difficulty: real, offset: real): (r: Spawner)
    ensures |r.pipes| == |s.pipes| + 1
    ensures r.pipes[..|s.pipes|] == s.pipes
    ensures r.pipes[|s.pipes|] == Fresh(difficulty, offset)
    ensures r.lastSpawn == s.lastSpawn
  {
    s.(pipes := s.pipes + [Fresh(difficulty, offset)])
  }

  /** Every pair scrolled once. */
  function MoveAll(ps: seq<PP.PipePair>, delta: real): (r: seq<PP.PipePair>)
    ensures |r| == |ps|
    ensures forall i :: 0 <= i < |ps| ==> r[i] == PP.Update(ps[i], delta)
  {
    seq(|ps|, i requires 0 <= i < |ps| => PP.Update(ps[i], delta))
  }

  /** The `filter` that removes offscreen pairs: nothing offscreen survives,
      every onscreen pair is kept as often as it occurs, and the order is
      kept. */
  function Prune(ps: seq<PP.PipePair>): (r: seq<PP.PipePair>)
    ensures forall p :: p in r ==> !PP.IsOffscreen(p)
    ensures forall p :: p in ps && !PP.IsOffscreen(p) ==> p in r
    ensures IsSubsequence(r, ps)
    ensures forall q :: multiset(r)[q] == if PP.IsOffscreen(q) then 0 else multiset(ps)[q]
    decreases |ps|
  {
    if |ps| == 0 then []
    else
      var init := ps[..|ps| - 1];
      var last := ps[|ps| - 1];
      var rest := Prune(init);
      assert ps == init + [last];
      if PP.IsOffscreen(last) then
        assert |rest| > 0 ==> rest[|rest| - 1] != last;
        rest
      else
        assert (rest + [last])[..|rest|] == rest;
        rest + [last]
  }

  /** The elapsed-time accumulator after a frame of `delta` seconds. */
  function Accumulated(s: Spawner, delta: real): real
  {
    s.lastSpawn + delta * 1000.0
  }

  /** One frame: advance the timer, spawn at most one pair when the interval
      is reached (and restart the timer), scroll every pair, prune. */
  function Update(s: Spawner, delta: real, difficulty: real, offset: real): (r: Spawner)
    ensures Accumulated(s, delta) >= SpawnInterval ==> r.lastSpawn == 0.0
    ensures Accumulated(s, delta) < SpawnInterval ==> r.lastSpawn == Accumulated(s, delta)
    ensures forall p :: p in r.pipes ==> !PP.IsOffscreen(p)
    ensures Accumulated(s, delta) >= SpawnInterval ==>
      IsSubsequence(r.pipes, MoveAll(s.pipes + [Fresh(difficulty, offset)], delta))
    ensures Accumulated(s, delta) < SpawnInterval ==>
      IsSubsequence(r.pipes, MoveAll(s.pipes, delta))
    ensures |r.pipes| <= |s.pipes| + 1
    ensures Accumulated(s, delta) < SpawnInterval ==> |r.pipes| <= |s.pipes|
    ensures AllPlaced(s.pipes) ==> AllPlaced(r.pipes)
  {
    var acc := Accumulated(s, delta);
    var spawned := if acc >= SpawnInterval then SpawnPipe(s, difficulty, offset).(lastSpawn := 0.0) else s.(lastSpawn := acc);
    var moved := MoveAll(spawned.pipes, delta);
    var kept := Prune(moved);
    SubsequenceElements(kept, moved);
    PlacedThroughFrame(s, spawned.pipes, delta, difficulty, offset);
    spawned.(pipes := kept)
  }

  /** Spawning and scrolling keep every pair placed around its gap. */
  lemma PlacedThroughFrame(s: Spawner, ps: seq<PP.PipePair>, delta: real, difficulty: real, offset: real)
    requires ps == s.pipes || ps == s.pipes + [Fresh(difficulty, offset)]
    ensures AllPlaced(s.pipes) ==> AllPlaced(MoveAll(ps, delta))
  {
    if AllPlaced(s.pipes) {
      forall p | p in ps ensures PP.Placed(p) {
        var i :| 0 <= i < |ps| && ps[i] == p;
        if i < |s.pipes| {
          assert ps[i] == s.pipes[i];
        }
      }
      var moved := MoveAll(ps, delta);
      forall p | p in moved ensures PP.Placed(p) {
        var i :| 0 <= i < |moved| && moved[i] == p;
        assert ps[i] in ps;
      }
    }
  }

  /** Every pair's groups sit around its gap. */
  predicate AllPlaced(ps: seq<PP.PipePair>)
  {
    forall p :: p in ps ==> PP.Placed(p)
  }

  /** Every pair that is still on screen after the frame is there, moved by
      exactly one step. */
  lemma UpdateKeepsOnscreen(s: Spawner, delta: real, difficulty: real, offset: real, i: nat)
    requires i < |s.pipes|
    requires !PP.IsOffscreen(PP.Update(s.pipes[i], delta))
    ensures PP.Update(s.pipes[i], delta) in Update(s, delta, difficulty, offset).pipes
  {
    var acc := Accumulated(s, delta);
    if acc >= SpawnInterval {
      var ps := s.pipes + [Fresh(difficulty, offset)];
      assert ps[i] == s.pipes[i];
      assert MoveAll(ps, delta)[i] == PP.Update(s.pipes[i], delta);
    } else {
      assert MoveAll(s.pipes, delta)[i] == PP.Update(s.pipes[i], delta);
    }
  }

  /** When the interval is reached in a frame short enough not to carry it off
      screen, the fresh pair is the last in the list, already scrolled once. */
  lemma SpawnedPairIsLast(s: Spawner, delta: real, difficulty: real, offset: real)
    requires Accumulated(s, delta) >= SpawnInterval
    requires 0.0 <= delta <= 10.0
    ensures
      var r := Update(s, delta, difficulty, offset);
      && |r.pipes| > 0
      && r.pipes[|r.pipes| - 1] == PP.Update(Fresh(difficulty, offset), delta)
      && r.pipes[|r.pipes| - 1].x == SpawnDistance - PipeSpeed * delta
  {
    var moved := MoveAll(s.pipes + [Fresh(difficulty, offset)], delta);
    assert moved[|moved| - 1] == PP.Update(Fresh(difficulty, offset), delta);
    assert moved == moved[..|moved| - 1] + [moved[|moved| - 1]];
  }
}
