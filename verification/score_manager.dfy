/** The combo/multiplier scoring of the scrolling flappy game
    (3d-flappy-bird/src/systems/ScoreManager.js). The UI callbacks become
    outputs: `onScoreChange` fires on every call and carries nothing the state
    does not, `onCombo` is reported as `comboFired`. The best score is
    persisted in the string store under `BestScoreKey`. */
module ScoreManager {
  import opened Basics
  import opened Storage
  import opened FlappyConfig

  datatype Scores = Scores(score: nat, combo: nat, multiplier: nat, best: nat)

  /** The multiplier lies between 1 and the cap of 5. */
  predicate Valid(s: Scores)
  {
    1 <= s.multiplier <= 5
  }

  /** The stored text reads back as the in-memory best score. */
  predicate Persisted(s: Scores, store: Store)
  {
    ReadBest(store) == Some(s.best)
  }

  /** `Number(localStorage.getItem(key) || 0)`: an absent or empty entry reads
      as 0, decimal text as its value, and anything else as `None`. */
  function ReadBest(store: Store): (r: Option<nat>)
    ensures BestScoreKey !in store ==> r == Some(0)
  {
    if BestScoreKey !in store || store[BestScoreKey] == "" then Some(0)
    else ParseNat(store[BestScoreKey])
  }

  /** The constructor: a fresh session with the persisted best score, or
      `None` when the stored text is not a plain decimal number. */
  function Create(store: Store): (r: Option<Scores>)
    ensures r.Some? ==> Valid(r.value) && r.value.score == 0 && Persisted(r.value, store)
    ensures BestScoreKey !in store ==> r == Some(Scores(0, 0, 1, 0))
  {
    match ReadBest(store)
    case Some(b) => Some(Scores(0, 0, 1, b))
    case None => None
  }

  /** A new session: score, combo and multiplier restart; the best survives. */
  function Reset(s: Scores): (r: Scores)
    ensures Valid(r)
    ensures r.score == 0 && r.combo == 0 && r.multiplier == 1
    ensures r.best == s.best
  {
    s.(score := 0, combo := 0, multiplier := 1)
  }

  datatype AddPointOutcome = AddPointOutcome(scores: Scores, store: Store, comboFired: bool)

  /** One pipe passed. A clean pass extends the combo and every third one
      raises the multiplier (capped at 5); any other pass breaks the combo.
      The score then grows by the multiplier, and the best score follows it
      when high scores are tracked. */
  function AddPoint(s: Scores, store: Store, cleanPass: bool, trackHighScore: bool): (r: AddPointOutcome)
    ensures Valid(s) ==> Valid(r.scores)
    ensures r.scores.score == s.score + r.scores.multiplier
    ensures cleanPass ==> r.scores.combo == s.combo + 1
    ensures r.comboFired <==> cleanPass && (s.combo + 1) % 3 == 0
    ensures r.comboFired ==> r.scores.multiplier == (if s.multiplier < 5 then s.multiplier + 1 else 5)
    ensures cleanPass && !r.comboFired ==> r.scores.multiplier == s.multiplier
    ensures !cleanPass ==> r.scores.combo == 0 && r.scores.multiplier == 1 && r.scores.score == s.score + 1
    ensures r.scores.best >= s.best
    ensures r.scores.best != s.best <==> trackHighScore && r.scores.score > s.best
    ensures r.scores.best != s.best ==> r.scores.best == r.scores.score
    ensures r.scores.best == s.best ==> r.store == store
    ensures r.scores.best != s.best ==> r.store == store[BestScoreKey := NatToString(r.scores.best)]
  {
    var (combo, mult, fired) :=
      if cleanPass then
        var c := s.combo + 1;
        if c % 3 == 0 then (c, (if s.multiplier < 5 then s.multiplier + 1 else 5), true) else (c, s.multiplier, false)
      else (0, 1, false);
    var score := s.score + mult;
    if trackHighScore && score > s.best then
      AddPointOutcome(Scores(score, combo, mult, score), store[BestScoreKey := NatToString(score)], fired)
    else
      AddPointOutcome(Scores(score, combo, mult, s.best), store, fired)
  }

  /** With a valid multiplier every pass strictly raises the score. */
  lemma AddPointRaisesScore(s: Scores, store: Store, cleanPass: bool, trackHighScore: bool)
    requires Valid(s)
    ensures AddPoint(s, store, cleanPass, trackHighScore).scores.score > s.score
  {
  }

  /** The store always reads back as the best score: what `AddPoint` writes is
      exactly what the constructor would load. */
  lemma AddPointKeepsPersisted(s: Scores, store: Store, cleanPass: bool, trackHighScore: bool)
    ensures Persisted(s, store) ==>
      Persisted(AddPoint(s, store, cleanPass, trackHighScore).scores, AddPoint(s, store, cleanPass, trackHighScore).store)
  {
    var r := AddPoint(s, store, cleanPass, trackHighScore);
    if Persisted(s, store) && r.scores.best != s.best {
      ParseNatToString(r.scores.best);
      assert r.store[BestScoreKey] == NatToString(r.scores.best);
    }
  }

  datatype Op = Pass(cleanPass: bool, trackHighScore: bool) | ResetOp

  /** The scores after a sequence of passes and resets. */
  function Run(s: Scores, store: Store, ops: seq<Op>): Scores
    decreases |ops|
  {
    if |ops| == 0 then s
    else
      match ops[0]
      case ResetOp => Run(Reset(s), store, ops[1..])
      case Pass(c, t) =>
        var o := AddPoint(s, store, c, t);
        Run(o.scores, o.store, ops[1..])
  }

  /** Across any sequence of passes and resets the multiplier stays within
      [1, 5] and the best score never drops. */
  lemma {:induction false} RunKeepsInvariants(s: Scores, store: Store, ops: seq<Op>)
    requires Valid(s)
    ensures Valid(Run(s, store, ops))
    ensures Run(s, store, ops).best >= s.best
    decreases |ops|
  {
    if |ops| > 0 {
      match ops[0]
      case ResetOp =>
        RunKeepsInvariants(Reset(s), store, ops[1..]);
      case Pass(c, t) =>
        var o := AddPoint(s, store, c, t);
        RunKeepsInvariants(o.scores, o.store, ops[1..]);
    }
  }

  /** Three clean passes after a reset: score 1 + 1 + 2 = 4 with the
      multiplier raised to 2 on the third. */
  lemma ThreeCleanPasses(s: Scores, store: Store)
    ensures
      var r0 := Reset(s);
      var o1 := AddPoint(r0, store, true, true);
      var o2 := AddPoint(o1.scores, o1.store, true, true);
      var o3 := AddPoint(o2.scores, o2.store, true, true);
      && o3.scores.score == 4 && o3.scores.multiplier == 2 && o3.scores.combo == 3
      && !o1.comboFired && !o2.comboFired && o3.comboFired
  {
  }

  /** In practice mode neither the best score nor the store ever changes. */
  lemma UntrackedLeavesBest(s: Scores, store: Store, cleanPass: bool)
    ensures AddPoint(s, store, cleanPass, false).scores.best == s.best
    ensures AddPoint(s, store, cleanPass, false).store == store
  {
  }

  /** A best score of 150 read from the store is replaced, once the score
      passes it, by the new score written back as "200". */
  lemma BestScoreScenario()
    ensures
      var store := map[BestScoreKey := "150"];
      var s := Scores(199, 0, 1, 150);
      var o := AddPoint(s, store, false, true);
      && ReadBest(store) == Some(150)
      && o.scores.best == 200
      && ReadBest(o.store) == Some(200)
  {
    var store := map[BestScoreKey := "150"];
    assert store[BestScoreKey] == ['1', '5', '0'];
    assert ['1', '5', '0'][..2] == ['1', '5'];
    assert ['1', '5'][..1] == ['1'];
    assert ['1'][..0] == [];
    ParseNatToString(200);
  }
}
