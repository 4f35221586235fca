/** The tuning constants and enumerations of the scrolling 3D flappy game
    (3d-flappy-bird/src/constants.js). Only the values the simulation reads
    are kept; camera and field-of-view settings are rendering-only. */
module FlappyConfig {

  datatype GameState = Idle | Running | Paused | GameOver

  datatype GameMode = Classic | Practice

  /** The string each state is frozen to in the source. */
  function StateName(s: GameState): string
  {
    match s
    case Idle => "idle"
    case Running => "running"
    case Paused => "paused"
    case GameOver => "game_over"
  }

  function ModeName(m: GameMode): string
  {
    match m
    case Classic => "classic"
    case Practice => "practice"
  }

  // PIPE_CONFIG
  const GapBase: real := 8.0
  const GapVariation: real := 2.5
  /** Milliseconds between pipe spawns. */
  const SpawnInterval: real := 2400.0
  const PipeSpeed: real := 7.6
  const SpawnDistance: real := 36.0

  // BIRD_CONFIG
  const Gravity: real := -18.0
  const FlapStrength: real := 8.5
  const MaxDescent: real := -14.0
  const MaxAscent: real := 12.0

  // WORLD_CONFIG
  const FloorLevel: real := -8.0
  const SkyLevel: real := 16.0
  const ScrollSpeed: real := 7.6

  // STORAGE_KEYS
  const BestScoreKey: string := "flappy3d_best_score"
  const SoundEnabledKey: string := "flappy3d_sound"

  /** The smallest gap the spawner will produce. */
  const MinGap: real := 5.0
  /** The largest difficulty offset the game computes. */
  const MaxDifficulty: real := 3.2
  /** A pipe further left than this is pruned. */
  const OffscreenX: real := -SpawnDistance * 1.2
  /** The lowest height the bird may occupy. */
  const BirdFloor: real := FloorLevel + 1.5

  /** The four state names and the two mode names are pairwise distinct, so
      comparing names is the same as comparing states. */
  lemma NamesDistinct(a: GameState, b: GameState, m: GameMode, n: GameMode)
    ensures StateName(a) == StateName(b) <==> a == b
    ensures ModeName(m) == ModeName(n) <==> m == n
  {
  }

  /** Falling is bounded below zero, and one flap never exceeds the climb cap. */
  lemma BirdLimitsOrdered()
    ensures MaxDescent < 0.0 < FlapStrength <= MaxAscent
    ensures Gravity < 0.0
  {
  }

  /** The band in which the bird's height is clamped is not empty. */
  lemma FlightBandNonEmpty()
    ensures BirdFloor < SkyLevel
    ensures BirdFloor == -6.5
  {
  }

  /** At the largest difficulty the base gap falls below the minimum, so the
      spawner's lower clamp is the one that binds; the upper clamp never binds
      for non-negative difficulty. */
  lemma GapClampBinds()
    ensures GapBase - MaxDifficulty < MinGap <= GapBase <= GapBase + GapVariation
  {
  }

  /** A freshly spawned pipe lies far to the right of the pruning line. */
  lemma SpawnRightOfPruneLine()
    ensures OffscreenX == -43.2
    ensures SpawnDistance > OffscreenX
  {
  }

  lemma StorageKeysDistinct()
    ensures BestScoreKey != SoundEnabledKey
  {
  }
}
