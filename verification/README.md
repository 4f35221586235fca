# Three browser game simulations, in Dafny

This project models the simulation logic behind three small three.js browser
games. Rendering is left aside; what remains is what each game does with its
numbers and lists.

- **The scrolling flappy game** (`3d-flappy-bird/src`):
  - the bird's velocity and height clamps;
  - pipe pairs placed around their gap;
  - a spawner with a millisecond timer, a gap clamp and offscreen pruning;
  - combo/multiplier scoring with a persisted best score;
  - the sound preference;
  - the game's idle/running/paused/game-over state machine, with per-pipe
    scoring that happens at most once.
- **The earlier frame-stepped flappy game** (`1_3d_flappy_bird_game`):
  - fixed gravity and jump steps;
  - a random spawn gate;
  - a backwards sweep over the pipes that scrolls each one, scores each pass
    once by the pipe's id, tests hand-built collision boxes and drops pipes far
    to the left;
  - the top-five high-score table.
- **Pac-Man** (`2_3d_pacman/src`):
  - the maze layout and one wall block per wall cell;
  - the push-out wall collision with its bounds clamp;
  - the collectible manager's counts and pick-ups (power pellets first);
  - the player's key input and friction;
  - the ghosts' direction choice, cooldown and bounds;
  - the game's rules for pick-ups, ghost contacts, lives and power mode.

Coordinates are exact `real`s. Randomness, clock deltas and library geometry are
parameters of the operations that use them:

- `Math.random()`, `randFloatSpread` and `Date.now()` ids;
- the three.js `Clock` delta;
- the bounding boxes of meshes;
- the direction of a maze push.

Every operation is a pure function on an immutable record. The browser's
`localStorage` is a `map<string, string>`. A number is written there as its
decimal text and read back with a parser of plain decimal text.

Notes on the source as written, which the model follows:

- The Pac-Man `Game.js` reads `this.player.mesh` in `init` (line 51) before it
  assigns `this.player` (line 60). It also calls `ghost.update()` (line 118)
  without the time step and maze the ghost needs. The game class as written
  therefore never reaches its loop. Each of its methods is modelled on its own,
  and the ghost step of a frame is a parameter.
- `Ghost.js` and `CollectibleManager.js` call maze members (`isWallAt`,
  `getBounds`, `cellSize`, `gridToWorld`) that `Maze.js` does not define. They
  are modelled against an abstract maze view.
- A ghost with no open direction picks among all four directions
  (`Ghost.js` lines 99-101).
- Frame deltas are used as the clock gives them, with no upper bound.
- Power mode's ten-second `setTimeout` (`Game.js` lines 191-194) is never
  cancelled, so a first power pellet's timer ends power mode even after a
  second one is eaten. The timer's callback is the separate event
  `PacmanGame.EndPowerMode`.

Files:

| file | module | what it holds |
|---|---|---|
| basics.dfy | Basics | `Option`, `Min`/`Max`/`Clamp`/`Abs` |
| geometry.dfy | Geometry | 3-vectors, axis-aligned boxes and their intersection |
| storage.dfy | Storage | the string store and decimal text of numbers |
| flappy_config.dfy | FlappyConfig | the scrolling game's constants and enumerations |
| score_manager.dfy | ScoreManager | combo scoring and the persisted best score |
| sound_manager.dfy | SoundManager | the sound preference and clip selection |
| bird.dfy | Bird | the bird |
| pipe_pair.dfy | PipePair | one pipe pair |
| pipe_spawner.dfy | PipeSpawner | spawning, scrolling and pruning pairs |
| flappy_game.dfy | FlappyGame | the scrolling game's state machine and frame |
| seqs.dfy | Seqs | order-preserving sub-sequences |
| high_scores.dfy | HighScores | the top-five table |
| legacy_flappy.dfy | LegacyFlappy | the frame-stepped game |
| grid.dfy | Grid | row-major enumeration of layout cells |
| pacman_config.dfy | PacmanConfig | Pac-Man settings and the layout, with its counts |
| maze.dfy | Maze | wall placement and wall collision |
| collectibles.dfy | Collectibles | the collectible manager |
| player.dfy | Player | Pac-Man's movement |
| player_glide.dfy | PlayerGlide | how long a released player glides |
| ghost.dfy | Ghost | a ghost |
| pacman_game.dfy | PacmanGame | the Pac-Man game rules |

## Model

| member | source | states |
|---|---|---|
| FlappyConfig.NamesDistinct | 3d-flappy-bird/src/constants.js:1-11 | the four game-state names and the two mode names are pairwise distinct, so comparing names is comparing states |
| FlappyConfig.BirdLimitsOrdered | 3d-flappy-bird/src/constants.js:21-28 | the descent cap is below zero, the flap strength positive and within the climb cap, gravity negative |
| FlappyConfig.FlightBandNonEmpty | 3d-flappy-bird/src/constants.js:30-36 | the bird's height band [floor + 1.5, sky] is [-6.5, 16] and not empty |
| FlappyConfig.GapClampBinds | 3d-flappy-bird/src/constants.js:13-19 | base gap minus the top difficulty 3.2 is below the minimum gap 5, which is at most the base gap, at most base plus variation: at full difficulty the lower clamp binds |
| FlappyConfig.SpawnRightOfPruneLine | 3d-flappy-bird/src/entities/PipePair.js:58-60 | the pruning line is x = -43.2 and the spawn x of 36 lies right of it, so a fresh pair is never pruned at once |
| FlappyConfig.StorageKeysDistinct | 3d-flappy-bird/src/constants.js:38-41 | the best-score key and the sound key differ, so writing one never disturbs the other |
| Storage.ParseNat | 3d-flappy-bird/src/systems/ScoreManager.js:11 | reading stored text succeeds exactly on non-empty strings of decimal digits |
| Storage.ParseNatToString | 3d-flappy-bird/src/systems/ScoreManager.js:37-40 | the decimal text written for a number reads back as that number (round trip) |
| Storage.NatToStringInjective | 3d-flappy-bird/src/systems/ScoreManager.js:37-40 | distinct best scores are stored as distinct texts |
| ScoreManager.ReadBest | 3d-flappy-bird/src/systems/ScoreManager.js:11 | an absent best-score entry reads as 0 |
| ScoreManager.Create | 3d-flappy-bird/src/systems/ScoreManager.js:4-13 | a new session starts at score 0 with a valid multiplier and the best score the store holds; with nothing stored it is all zeros and multiplier 1 |
| ScoreManager.Reset | 3d-flappy-bird/src/systems/ScoreManager.js:15-20 | score, combo and multiplier restart at 0, 0, 1 and the best score is untouched |
| ScoreManager.AddPoint | 3d-flappy-bird/src/systems/ScoreManager.js:22-42 | a clean pass extends the combo; the combo event fires exactly when the new combo is a multiple of 3, and then the multiplier rises by one up to 5; an unclean pass resets combo and multiplier and scores exactly 1; the score grows by the new multiplier; the best score never drops, changes exactly when tracked and beaten, then equals the score and is written to the store, otherwise the store is unchanged |
| ScoreManager.AddPointRaisesScore | 3d-flappy-bird/src/systems/ScoreManager.js:34 | with a multiplier in [1, 5] every pass strictly raises the score |
| ScoreManager.AddPointKeepsPersisted | 3d-flappy-bird/src/systems/ScoreManager.js:37-40 | when the store reads back as the best score before a pass, it still does after it |
| ScoreManager.RunKeepsInvariants | 3d-flappy-bird/src/systems/ScoreManager.js:15-42 | across any sequence of passes and resets the multiplier stays in [1, 5] and the best score never drops |
| ScoreManager.ThreeCleanPasses | 3d-flappy-bird/src/systems/ScoreManager.js:23-34 | three clean passes after a reset give score 4, multiplier 2, combo 3, with the combo event only on the third |
| ScoreManager.UntrackedLeavesBest | 3d-flappy-bird/src/systems/ScoreManager.js:37-41 | with high scores untracked neither the best score nor the store changes |
| ScoreManager.BestScoreScenario | 3d-flappy-bird/src/systems/ScoreManager.js:37-41 | a stored "150" reads as 150; a pass taking the score to 200 makes 200 the best score and the store reads back 200 |
| SoundManager.LoadPreference | 3d-flappy-bird/src/systems/SoundManager.js:16-19 | sound is on when nothing is stored, and otherwise exactly when the stored text is "true" |
| SoundManager.LoadWrittenPreference | 3d-flappy-bird/src/systems/SoundManager.js:16-25 | the text `toggle` writes for a boolean reads back as that boolean |
| SoundManager.Create | 3d-flappy-bird/src/systems/SoundManager.js:4-14 | a new manager's preference is the loaded one |
| SoundManager.Toggle | 3d-flappy-bird/src/systems/SoundManager.js:21-25 | the preference flips, the new value is returned, the store reads back as it, and no other key changes |
| SoundManager.ToggleTwice | 3d-flappy-bird/src/systems/SoundManager.js:21-25 | toggling twice restores the preference, and the store reads back as it |
| SoundManager.Play | 3d-flappy-bird/src/systems/SoundManager.js:27-35 | no clip plays while disabled or for an unknown name; otherwise the named clip plays |
| SoundManager.KnownClips | 3d-flappy-bird/src/systems/SoundManager.js:6-10 | exactly "flap", "score" and "hit" have clips |
| Bird.Reset | 3d-flappy-bird/src/entities/Bird.js:71-76 | velocity 0, combo 0, position (-6, 0, 0), and the bird is within its clamps |
| Bird.Flap | 3d-flappy-bird/src/entities/Bird.js:78-81 | the velocity becomes the old one plus 8.5 or the cap 12, never above 12; from at most 12 it never decreases; nothing else changes |
| Bird.Update | 3d-flappy-bird/src/entities/Bird.js:101-111 | for any frame length the velocity ends in [-14, 12] and the height in [-6.5, 16]; within the clamps the velocity gains gravity times delta and the height moves by the clamped velocity times delta, and outside them it sits on the bound; x and z do not change |
| Bird.FallingSlowsClimb | 3d-flappy-bird/src/entities/Bird.js:101-107 | a frame of non-negative length never raises the velocity |
| PipePair.UpdatePositions | 3d-flappy-bird/src/entities/PipePair.js:48-52 | the top group sits at offset + gap/2 + 16 and the bottom at offset - gap/2 - 16; nothing else moves |
| PipePair.New | 3d-flappy-bird/src/entities/PipePair.js:5-12 | a new pair is unscored, keeps the given gap and offset, and is placed around its gap |
| PipePair.OpeningIsGap | 3d-flappy-bird/src/entities/PipePair.js:23-52 | with pipes of height 32 the inner edges are offset ± gap/2: the opening equals the gap and is centred on the offset |
| PipePair.Update | 3d-flappy-bird/src/entities/PipePair.js:54-56 | x decreases by 7.6 times delta and nothing else changes |
| PipePair.OffscreenThreshold | 3d-flappy-bird/src/entities/PipePair.js:58-60 | a pair is offscreen exactly when x < -43.2 |
| PipePair.SetGapSize | 3d-flappy-bird/src/entities/PipePair.js:62-65 | the gap changes, the offset stays, and both groups are re-placed |
| PipePair.SetOffset | 3d-flappy-bird/src/entities/PipePair.js:67-70 | the offset changes, the gap stays, and both groups are re-placed |
| PipeSpawner.Reset | 3d-flappy-bird/src/systems/PipeSpawner.js:14-18 | no pairs and the timer at 0 |
| PipeSpawner.ResetIdempotent | 3d-flappy-bird/src/systems/PipeSpawner.js:14-18 | resetting twice is resetting once |
| PipeSpawner.GapFor | 3d-flappy-bird/src/systems/PipeSpawner.js:41-45 | the gap lies in [5, 10.5]; for a difficulty in [0, 3.2] it lies in [5, 8]; where no clamp binds it is 8 minus the difficulty |
| PipeSpawner.GapAtMaxDifficulty | 3d-flappy-bird/src/systems/PipeSpawner.js:41-45 | at difficulty 3.2 the gap is the minimum 5 |
| PipeSpawner.Fresh | 3d-flappy-bird/src/systems/PipeSpawner.js:39-50 | a fresh pair is unscored, at x = 36 and z = -1, with the clamped gap and the given offset, placed around its gap |
| PipeSpawner.SpawnPipe | 3d-flappy-bird/src/systems/PipeSpawner.js:39-55 | the fresh pair is appended at the end and the earlier pairs are kept in order |
| PipeSpawner.MoveAll | 3d-flappy-bird/src/systems/PipeSpawner.js:28 | every pair is scrolled exactly once |
| PipeSpawner.Prune | 3d-flappy-bird/src/systems/PipeSpawner.js:29-35 | no offscreen pair survives; every onscreen pair is kept as many times as it occurs; the survivors keep their order |
| PipeSpawner.Update | 3d-flappy-bird/src/systems/PipeSpawner.js:20-37 | once the accumulated milliseconds reach 2400 one pair is spawned and the timer restarts at 0, otherwise the timer accumulates and the list does not grow; the result is an ordered sub-list of the scrolled pairs, holds nothing offscreen, and keeps pairs placed |
| PipeSpawner.PlacedThroughFrame | 3d-flappy-bird/src/systems/PipeSpawner.js:20-37 | spawning and scrolling keep every pair placed around its gap |
| PipeSpawner.UpdateKeepsOnscreen | 3d-flappy-bird/src/systems/PipeSpawner.js:28-35 | a pair still onscreen after its scroll is in the result, moved by exactly one step |
| PipeSpawner.SpawnedPairIsLast | 3d-flappy-bird/src/systems/PipeSpawner.js:20-37 | in a spawning frame of at most 10 seconds the fresh pair is last in the list, at x = 36 - 7.6 delta |
| FlappyGame.Create | 3d-flappy-bird/src/systems/Game.js:10-53 | a new game is idle in classic mode with no pipes and score 0, keeps the invariant, and exists exactly when the stored best score reads |
| FlappyGame.Start | 3d-flappy-bird/src/systems/Game.js:153-165 | a no-op while running; otherwise the game runs in the requested mode with score, combo and multiplier restarted, the best score kept, the bird at its start at rest and no pipes |
| FlappyGame.TogglePause | 3d-flappy-bird/src/systems/Game.js:167-177 | running and paused swap, idle and game over are unchanged, and nothing but the state changes |
| FlappyGame.TogglePauseTwice | 3d-flappy-bird/src/systems/Game.js:167-177 | toggling twice restores the game |
| FlappyGame.Flap | 3d-flappy-bird/src/systems/Game.js:179-185 | a flap reaches the bird only while running |
| FlappyGame.HandleGameOver | 3d-flappy-bird/src/systems/Game.js:187-191 | the state becomes game over and nothing else changes |
| FlappyGame.DifficultyOffset | 3d-flappy-bird/src/systems/Game.js:210-213 | 0 in practice mode; otherwise score/12 up to a score of 38.4 and 3.2 beyond, always within [0, 3.2] |
| FlappyGame.DifficultyMonotone | 3d-flappy-bird/src/systems/Game.js:210-213 | a higher score never gives a lower difficulty |
| FlappyGame.CountEligible | 3d-flappy-bird/src/systems/Game.js:217 | no pair is eligible exactly when the count is 0 |
| FlappyGame.ScorePipes | 3d-flappy-bird/src/systems/Game.js:216-223 | every pair the bird has passed is marked scored and the others are unchanged; with nothing eligible the scores and the store are unchanged |
| FlappyGame.ScorePipesScores | 3d-flappy-bird/src/systems/Game.js:216-223 | each eligible pair adds between 1 and 5 points; the multiplier stays valid; the best score never drops, stays put when untracked, and remains persisted |
| FlappyGame.ScoredStillPlaced | 3d-flappy-bird/src/systems/Game.js:216-223 | scoring only marks pairs, so placed pairs stay placed |
| FlappyGame.ScoreOnePipe | 3d-flappy-bird/src/systems/Game.js:217-221 | one eligible pair makes exactly one `addPoint` call, clean exactly when the bird is within 0.3 gap of the offset, and marks the pair scored |
| FlappyGame.ScorePipesOnce | 3d-flappy-bird/src/systems/Game.js:217-220 | scoring the scored pairs again adds nothing: each pair triggers `addPoint` at most once |
| FlappyGame.UpdateGame | 3d-flappy-bird/src/systems/Game.js:208-231 | the bird takes its update; the spawner runs at the score's difficulty, then the spawned and scrolled pairs the moved bird has passed are scored, tracking the best score only in classic mode, and the pairs, scores and store are exactly those results; the game ends exactly when a collision is reported in classic mode; practice mode never touches the best score or the store; the invariant is kept |
| FlappyGame.Loop | 3d-flappy-bird/src/systems/Game.js:193-200 | outside running nothing changes; a running frame moves the bird, spawns and scrolls the pairs and scores the passed ones exactly as the frame update does; the only state change is from running to game over, on a collision in classic mode; the best score never drops |
| FlappyGame.OperationsKeepInv | 3d-flappy-bird/src/systems/Game.js:153-231 | start, pause toggling, flap, game over and the frame all keep the invariant (valid multiplier, persisted best score, bird within its clamps, pipes placed) |
| HighScores.IsHighScore | 1_3d_flappy_bird_game/highscores.js:16-18 | a short table always qualifies a score; a full sorted table qualifies exactly the scores above some entry, that is above the last |
| HighScores.Insert | 1_3d_flappy_bird_game/highscores.js:25 | the stable insertion step adds exactly the new entry (as a multiset) |
| HighScores.InsertKeepsSorted | 1_3d_flappy_bird_game/highscores.js:25 | inserting into a sorted table keeps it sorted |
| HighScores.SortDesc | 1_3d_flappy_bird_game/highscores.js:25 | the sort is a permutation and the result is non-increasing |
| HighScores.AddHighScore | 1_3d_flappy_bird_game/highscores.js:20-34 | the table stays sorted and at most five long; its length is min(old + 1, 5); its entries are a sub-multiset of the old ones plus the new one |
| HighScores.AddDropsOnlyLowest | 1_3d_flappy_bird_game/highscores.js:24-30 | an entry that is dropped scores no more than every entry kept |
| HighScores.SortSortedIsIdentity | 1_3d_flappy_bird_game/highscores.js:25 | sorting a sorted table changes nothing |
| HighScores.InsertLowestAppends | 1_3d_flappy_bird_game/highscores.js:25 | a score no higher than any in the table goes last |
| HighScores.AddToSorted | 1_3d_flappy_bird_game/highscores.js:22-25 | on a sorted table, pushing and sorting is a single stable insertion |
| HighScores.InsertSplits | 1_3d_flappy_bird_game/highscores.js:25 | the insertion puts the entry after the table's leading run of scores at least as high |
| HighScores.HighScoreIsKept | 1_3d_flappy_bird_game/highscores.js:16-34 | on a valid table a qualifying score's entry survives `addHighScore`, and a non-qualifying one leaves the table unchanged |
| HighScores.KeptWhenHigh | 1_3d_flappy_bird_game/highscores.js:16-34 | a qualifying entry is in the new table |
| HighScores.UnchangedWhenLow | 1_3d_flappy_bird_game/highscores.js:16-34 | a non-qualifying score leaves a valid table as it was |
| HighScores.AddIsSplitPrefix | 1_3d_flappy_bird_game/highscores.js:20-30 | on a sorted table the result is the first five of the table with the entry inserted after its leading run |
| HighScores.TieWithLastIsDropped | 1_3d_flappy_bird_game/highscores.js:17-30 | with five entries, a new score equal to the lowest is dropped because the sort is stable |
| LegacyFlappy.GapCentre | 1_3d_flappy_bird_game/game.js:101-103 | the gap centre lies in [-4, 4) |
| LegacyFlappy.CreatePipe | 1_3d_flappy_bird_game/game.js:95-127 | one pair is appended at group x = 0 with the given id; its opening is 6 high with centre in [-4, 4); the last pipe position becomes 10 and nothing else changes |
| LegacyFlappy.Jump | 1_3d_flappy_bird_game/game.js:129-133 | while running the velocity becomes exactly 0.3; otherwise nothing changes |
| LegacyFlappy.ResetGame | 1_3d_flappy_bird_game/game.js:153-173 | the bird is at (-5, 0, 0) at rest with no pipes, score 0 and no passed ids; the running flag and the table are kept |
| LegacyFlappy.StartGame | 1_3d_flappy_bird_game/game.js:135-137 | a reset followed by running |
| LegacyFlappy.GameOver | 1_3d_flappy_bird_game/game.js:175-191 | the game stops and asks for a name exactly when the score qualifies for the table |
| LegacyFlappy.CollidesByCentres | 1_3d_flappy_bird_game/game.js:261-322 | the box test holds exactly when the centres are within the summed half-extents on x (0.45 + 0.4 scale, at child x plus group x) and z, and on y for one of the two pipes (10 + 0.4 scale) |
| LegacyFlappy.InsideGapIsSafe | 1_3d_flappy_bird_game/game.js:261-322 | a bird whose box lies strictly inside the opening does not collide |
| LegacyFlappy.Spawn | 1_3d_flappy_bird_game/game.js:216-224 | a pair is created exactly when the roll is below 0.005 and the list is empty or its last group x is below -5; the earlier pairs are kept |
| LegacyFlappy.SweepPipes | 1_3d_flappy_bird_game/game.js:226-258 | the passed set only grows, the score grows by exactly the ids added, and the list does not grow |
| LegacyFlappy.SweepKeepsRight | 1_3d_flappy_bird_game/game.js:253-257 | after a sweep without a hit every pair left is at x >= -15 |
| LegacyFlappy.SweepMissesAll | 1_3d_flappy_bird_game/game.js:247-251 | a sweep without a hit scrolled every pair clear of the bird |
| LegacyFlappy.SweepCountsOwnIds | 1_3d_flappy_bird_game/game.js:231-245 | an id is newly counted only for a swept pair that passes after its scroll: group x + 0.5 below the bird's x - 0.5, id not yet counted, and the bird strictly between the gap's edges |
| LegacyFlappy.SweepCountsEveryPass | 1_3d_flappy_bird_game/game.js:231-245 | in a sweep without a hit, every pair that passes after its scroll has its id counted |
| LegacyFlappy.Update | 1_3d_flappy_bird_game/game.js:193-259 | a no-op when not running; the velocity gains -0.012 and then the height the new velocity; leaving [-10, 10] ends the game with the pipes and score untouched; a running game holds no pair left of -15; ending asks for a name exactly when the score qualifies; score minus passed ids is constant; the ids newly counted are exactly those of this frame's pairs (after the spawn) that pass the moved bird after their scroll, all of them when the game keeps running |
| LegacyFlappy.CountedIdNeverRescored | 1_3d_flappy_bird_game/game.js:232-244 | a pair whose id was counted never adds to the score again |
| PacmanConfig.LayoutRectangular | 2_3d_pacman/src/utils/Constants.js:23-35 | the layout has 11 rows of 13 cells |
| PacmanConfig.LayoutValues | 2_3d_pacman/src/utils/Constants.js:23-36 | every cell is a pellet (0), a wall (1) or a power pellet (2) |
| PacmanConfig.LayoutBorderIsWall | 2_3d_pacman/src/utils/Constants.js:24-34 | the first and last rows and columns are all wall |
| PacmanConfig.RowTallies | 2_3d_pacman/src/utils/Constants.js:23-35 | row by row, the layout holds 63 pellets, 76 walls and 4 power pellets |
| PacmanConfig.LayoutCounts | 2_3d_pacman/src/utils/Constants.js:23-35 | counted over the rows, the layout holds 63 pellet, 76 wall and 4 power-pellet cells |
| PacmanConfig.LayoutCells | 2_3d_pacman/src/utils/Constants.js:23-35 | enumerated cell by cell, the layout lists 63 pellet cells, 4 power-pellet cells, 67 holding either, and 76 walls |
| Grid.RowCellsExact | 2_3d_pacman/src/game/Maze.js:41-53 | a row lists exactly its cells whose value is selected, in increasing column order |
| Grid.GridCellsExact | 2_3d_pacman/src/game/Maze.js:40-53 | the layout lists exactly its cells whose value is selected, in row-major order without repeats |
| Grid.GridCellsCount | 2_3d_pacman/src/game/CollectibleManager.js:85-96 | listing the cells of a value finds as many as the value occurs in the rows |
| Grid.GridCellsPair | 2_3d_pacman/src/game/Game.js:78-80 | listing the cells of either of two values finds the cells of the one plus those of the other |
| Maze.Walls | 2_3d_pacman/src/game/Maze.js:36-55 | one wall per wall cell, in row-major order, at (2x - W, 3, 2z - H) |
| Maze.WallsAreWallCells | 2_3d_pacman/src/game/Maze.js:36-55 | a point is a wall centre exactly when it is the centre of a wall cell |
| Maze.PushAll | 2_3d_pacman/src/game/Maze.js:97-110 | the push flag is clear exactly when the starting position is at least 1.6 from every wall, and then the position is unchanged; the height never changes |
| Maze.ClampToBounds | 2_3d_pacman/src/game/Maze.js:112-119 | x ends in [-2W, 2W] and z in [-2H, 2H]; a position already inside is unchanged |
| Maze.CheckCollision | 2_3d_pacman/src/game/Maze.js:93-122 | the result lies within the bounds at the same height; it reports true exactly when some wall is closer than 1.6; when false only the clamp applies |
| Maze.ClearPositionIsFixed | 2_3d_pacman/src/game/Maze.js:93-122 | a position inside the bounds and clear of every wall is left where it is |
| Collectibles.RemainingCount | 2_3d_pacman/src/game/CollectibleManager.js:63-65 | the remaining count is the number of active pellets plus active power pellets |
| Collectibles.Place | 2_3d_pacman/src/game/CollectibleManager.js:111-132 | one active entry per cell, indexed by its position in the list, at the cell's world position raised to the kind's height |
| Collectibles.Create | 2_3d_pacman/src/game/CollectibleManager.js:67-132 | one active pellet per 0-cell and one active power pellet per 2-cell, in row-major order, with remaining counts equal to those numbers |
| Collectibles.CountCollectibles | 2_3d_pacman/src/game/CollectibleManager.js:82-96 | the nested counting loops count exactly the 0-cells and the 2-cells |
| Collectibles.FindFrom | 2_3d_pacman/src/game/CollectibleManager.js:183-199 | the first active entry within reach from a start index, or none exactly when there is none |
| Collectibles.DeactivateCount | 2_3d_pacman/src/game/CollectibleManager.js:188-194 | switching off an active entry lowers the active count by one |
| Collectibles.CollectFromList | 2_3d_pacman/src/game/CollectibleManager.js:177-203 | the first active entry within reach (distance squared at most the radius squared) is switched off and reported; with none the list is unchanged |
| Collectibles.CollectAt | 2_3d_pacman/src/game/CollectibleManager.js:49-61 | a power pellet is reported exactly when one is within 0.55; nothing is reported exactly when nothing is within reach, and then nothing changes; when a power pellet is reported the first one in reach is switched off and the pellets are untouched, and when a pellet is reported the first pellet in reach is switched off and the power pellets are untouched; the remaining count drops by one exactly when something is reported |
| Collectibles.CollectOnlyDeactivates | 2_3d_pacman/src/game/CollectibleManager.js:177-203 | collecting keeps positions and list lengths and never reactivates an entry |
| Collectibles.EmptyCollectsNothing | 2_3d_pacman/src/game/CollectibleManager.js:49-61 | once nothing remains nothing can be collected |
| Player.New | 2_3d_pacman/src/game/Player.js:4-11 | the player starts idle at (0, 0.5, 0) with zero velocity, facing +x, (1, 0, 0) |
| Player.KeyDirection | 2_3d_pacman/src/game/Player.js:48-65 | exactly the arrow and WASD keys select a direction, and it is one of the four axis directions |
| Player.HandleInput | 2_3d_pacman/src/game/Player.js:42-75 | any key sets the player moving; a direction key sets the direction and full speed along it; any other key changes nothing else |
| Player.Update | 2_3d_pacman/src/game/Player.js:77-101 | an idle player is unchanged; a moving one advances by its whole velocity, slows by 0.95, and stops with zero velocity exactly when the slowed velocity is shorter than 0.01 |
| Player.UpdateKeepsInv | 2_3d_pacman/src/game/Player.js:77-101 | the velocity stays on the facing axis with speed in [0, 0.1]; the player keeps moving exactly when 0.95 times its speed is at least 0.01, and then its speed is scaled by 0.95 |
| Player.StopTest | 2_3d_pacman/src/game/Player.js:95-99 | the length test on the slowed velocity is the test on the slowed speed |
| PlayerGlide.Glide | 2_3d_pacman/src/game/Player.js:77-101 | while the decayed speed stays at 0.01 or more the player keeps moving in the same direction at the decayed speed |
| PlayerGlide.KeyStartsAtFullSpeed | 2_3d_pacman/src/game/Player.js:42-75 | a direction key sets the player moving at full speed 0.1 |
| PlayerGlide.SlowPlayerStops | 2_3d_pacman/src/game/Player.js:95-99 | a player whose slowed speed is below 0.01 stops with zero velocity |
| PlayerGlide.StopsAfter45Updates | 2_3d_pacman/src/game/Player.js:94-99 | from full speed the player is still moving after 44 updates and stopped with zero velocity after 45 |
| Ghost.New | 2_3d_pacman/src/game/Ghost.js:11-24 | a new ghost heads +x, (1, 0, 0), which its first unforced choice will not reverse while another direction is open; it is calm, free to turn, at the given start or else at (0, 0.5, 0) |
| Ghost.SetFrightened | 2_3d_pacman/src/game/Ghost.js:38-45 | only the frightened flag changes, to the value given |
| Ghost.Reset | 2_3d_pacman/src/game/Ghost.js:51-57 | a reset ghost is a new ghost at the given position |
| Ghost.OpenAmong | 2_3d_pacman/src/game/Ghost.js:84-97 | the candidates are exactly the directions that are not a reversal (unless forced) and whose probe finds no wall |
| Ghost.Options | 2_3d_pacman/src/game/Ghost.js:84-101 | the open directions when any is open, otherwise all four |
| Ghost.ChooseDirection | 2_3d_pacman/src/game/Ghost.js:84-105 | the choice is one of the four directions, picked by the roll among the candidates, and open whenever any direction is open |
| Ghost.Confine | 2_3d_pacman/src/game/Ghost.js:76-78 | the clamp keeps a value within its bounds, keeps one already inside, and lets the upper bound win when they cross |
| Ghost.Steer | 2_3d_pacman/src/game/Ghost.js:60-67 | when the cooldown has run out or the roll is below 0.01 the ghost chooses afresh and the cooldown becomes 0.35; otherwise the cooldown counts down and stays positive |
| Ghost.Update | 2_3d_pacman/src/game/Ghost.js:59-82 | the direction stays one of the four; a step into a wall is not taken and forces a new choice; x and z end 0.4 inside the bounds whenever the bounds leave room; the height is within 0.1 of 0.5; the cooldown is 0.35 after a choice and positive otherwise |
| Ghost.FrightenedIsSlower | 2_3d_pacman/src/game/Ghost.js:62 | a frightened ghost's step is 0.6 of a calm one's |
| Ghost.NoReversalWhenAvoidable | 2_3d_pacman/src/game/Ghost.js:86-90 | an unforced choice with an open direction never reverses |
| PacmanGame.LayoutCollectibles | 2_3d_pacman/src/game/Game.js:78-92 | one collectible per 0- or 2-cell in row-major order at (x - w/2, 0.5, z - h/2), a power pellet exactly for a 2-cell |
| PacmanGame.Initial | 2_3d_pacman/src/game/Game.js:16-92 | score 0, 3 lives, not over, no power mode, four ghosts at their corners, a new player and the layout's collectibles |
| PacmanGame.StartingCounts | 2_3d_pacman/src/utils/Constants.js:23-35 | on the shipped layout the maze builds 76 walls, the collectible manager starts with 63 pellets and 4 power pellets, and the game holds 67 collectibles |
| PacmanGame.HandleInput | 2_3d_pacman/src/game/Game.js:106-110 | input reaches the player only while the game is not over |
| PacmanGame.ActivatePowerMode | 2_3d_pacman/src/game/Game.js:186-189 | power mode is on and every ghost is frightened; nothing else changes |
| PacmanGame.EndPowerMode | 2_3d_pacman/src/game/Game.js:191-194 | power mode is off and every ghost is calm; nothing else changes |
| PacmanGame.RespawnInSquare | 2_3d_pacman/src/game/Game.js:215-222 | a respawned ghost lands in [-5, 5) on x and z at height 0.5 |
| PacmanGame.ResetGhost | 2_3d_pacman/src/game/Game.js:215-222 | only the one ghost's position changes, using two random draws |
| PacmanGame.ResetAllGhosts | 2_3d_pacman/src/game/Game.js:211-212 | every ghost is respawned in turn, each with its own two draws |
| PacmanGame.PlayerDeath | 2_3d_pacman/src/game/Game.js:197-213 | one life less; the game is over exactly when none is left, and then nothing else changes; otherwise the player is at (0, 0.5, 0) with zero velocity and the ghosts are respawned |
| PacmanGame.Touch | 2_3d_pacman/src/game/Game.js:173-181 | a contact in power mode adds 200 and costs no life; otherwise it costs one life and no points |
| PacmanGame.GhostContacts | 2_3d_pacman/src/game/Game.js:171-183 | with no ghost in reach of the player nothing changes; a life is lost exactly when a ghost is in reach outside power mode; at least 200 points are gained exactly when a ghost is in reach in power mode; in power mode no life is lost and the gain is a multiple of 200, outside it nothing is gained |
| PacmanGame.Sweep | 2_3d_pacman/src/game/Game.js:148-168 | the pick-up pass never lengthens the list |
| PacmanGame.SweepKeepsOrder | 2_3d_pacman/src/game/Game.js:148-156 | the survivors keep their order |
| PacmanGame.SweepKeepsFar | 2_3d_pacman/src/game/Game.js:148-156 | exactly the collectibles at distance 0.7 or more survive, each as many times as it occurs |
| PacmanGame.SweepScores | 2_3d_pacman/src/game/Game.js:152-164 | points gained plus points left equal points before (10 a pellet, 50 a power pellet); power mode is triggered exactly when a power pellet was in reach; nothing is gained exactly when nothing is removed |
| PacmanGame.SweepFarIsIdentity | 2_3d_pacman/src/game/Game.js:148-152 | with nothing in reach the pass changes nothing |
| PacmanGame.SweepIdempotent | 2_3d_pacman/src/game/Game.js:148-168 | a second pass at the same spot finds nothing: each collectible is scored at most once |
| PacmanGame.Bob | 2_3d_pacman/src/game/Game.js:121 | bobbing moves collectibles only vertically and keeps their value |
| PacmanGame.PickUp | 2_3d_pacman/src/game/Game.js:144-168 | every collectible within 0.7 of the player is removed and every other one kept as many times as it occurs, in order; the score gains exactly the value removed; power mode is on exactly when it was on or a power pellet was in reach; the ghosts do not move |
| PacmanGame.ResolveWalls | 2_3d_pacman/src/game/Game.js:144-145 | only the player's position changes, to the maze's collision result, and the invariant is kept |
| PacmanGame.CheckCollisions | 2_3d_pacman/src/game/Game.js:142-184 | when power mode is off after the frame, score plus points on the board is unchanged; when it is on, that sum changes by a multiple of 200; no life is lost when power mode was on before the frame; the collectibles left keep their order |
| PacmanGame.CheckCollisionsRules | 2_3d_pacman/src/game/Game.js:142-184 | at the position the wall push leaves the player: exactly the collectibles within reach are removed; power mode ends up on exactly when it was on or a power pellet was in reach; a life is lost exactly when a ghost is in reach and power mode is off; points beyond the pick-ups are gained exactly when a ghost is in reach and power mode is on |
| PacmanGame.Advance | 2_3d_pacman/src/game/Game.js:115-121 | the movement part of a frame: the player takes its update, each ghost the frame's step, the collectibles bob; nothing else in the game changes |
| PacmanGame.Update | 2_3d_pacman/src/game/Game.js:112-131 | nothing changes once the game is over; otherwise the player glides, each ghost takes the frame's step, the collectibles bob, and collisions are checked on that state, so `CheckCollisionsRules` governs the frame; the score never drops, lives never rise, no life is lost in power mode, and the invariant is kept |
| PacmanGame.GameOverIsFinal | 2_3d_pacman/src/game/Game.js:106-113 | once over, neither input nor frames change anything |
| PacmanGame.PowerModeProtects | 2_3d_pacman/src/game/Game.js:171-183 | in power mode a frame never costs a life |

## Left out

- Rendering: scenes, meshes, materials, lights, cameras, the renderer, the skyline and particle field, the floor, character models, wing and mouth animation, tilt damping, the Pac-Man death animation and the player light. These are library calls with no effect on the simulation.
- The DOM and UI: overlay updates, score and lives elements, `displayHighScores`, `alert`, input event wiring and both `main.js` files. These are outside the simulation.
- Audio playback. `SoundManager.Play` gives the clip that would start; volume and playback are not modelled.
- `HighScoreManager.loadHighScores`, `saveHighScores` and `getHighScores` are not modelled. They are JSON I/O and a plain accessor; the table is a field of the legacy game.
- The pipes' `getBoundingBoxes` and `intersectsAny` come from the rendering library. The scrolling game takes the collision result as a parameter of its frame.
- The push direction of `Maze.checkCollision` uses `atan2`, `cos`, `sin` and `sqrt`. It is a parameter; distances are compared squared.
- `Maze.addWallEdges` and `addHedgeDetails` are decoration that `createMaze` never calls.
- The ghosts' `phase` and the clock behind their bob: the sine value is a parameter in [-1, 1].
- The collectible manager's `update` and `#updatePelletInstances` are bobbing and pulsing of meshes, not modelled.
- Pac-Man `Collectible.update` is modelled with one shared wave for all collectibles in a frame (`PacmanGame.Bob`). In the source each collectible reads the clock itself, so their waves can differ by a millisecond.
- Timers: power mode's `setTimeout` is the separate event `PacmanGame.EndPowerMode`. The clocks' deltas and elapsed times are parameters.
- Randomness: the spawner's offset, pipe colours, the legacy gap height, spawn roll and `Date.now()` id, ghost rolls and ghost respawn draws are parameters.
- IEEE floating-point rounding: coordinates are exact reals.
- `PacmanGame.Initial` does not model `init` as written, because it cannot complete (see above). It gives the state the constructor and `init` evidently set up.
- `PacmanGame.Sweep`: its own contract only bounds the length. What it removes, keeps and scores is stated by `SweepKeepsOrder`, `SweepKeepsFar` and `SweepScores`.
- `Storage.ParseNat` accepts plain decimal text only. `Number(...)` also accepts whitespace, signs, exponents and hexadecimal, which `localStorage` never holds for a score written by `setItem`.
