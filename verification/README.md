# Pac-Man game core in Dafny

This project models the game logic of the browser Pac-Man in
`target/classes/static/pacman.js`. It covers:

- the 21 x 19 board `gameMap` (0 empty, 1 wall, 2 pellet, 3 power pellet);
- the legality test `canMove`;
- Pac-Man's step with its buffered turn and pellet eating;
- the ghosts' candidate scan and their chase, flee and random choices, with
  the horizontal tunnel wrap;
- collision resolution: eating a ghost, losing a life, game over;
- the win scan;
- the reset of the session;
- one frame of `gameLoop`, which runs a logic tick every 8th frame and
  counts down power mode;
- the controls `startGame`, `pauseGame`, `resetGame` and the `keydown`
  turn request.

The modules follow the game's structure:

- `Grid` holds the constants, the maze template, the directions, the tunnel
  wrap and the distance.
- `Timing` holds the frame cadence and the power-mode countdown.
- `Actors` holds the Pac-Man and ghost records and their spawn places.
- `Choice` holds how a ghost picks a direction from its candidates.
- `Collisions` holds `checkCollisions`, as a fold over the ghost roster.
- `Engine` holds the class `Game`. Its fields are the game's globals. The
  board is an `array2<int>` changed in place. Its methods are the game's
  functions. Each method is proved against a specification function, or
  states its new state outright, with three exceptions: `Tick`, `GameLoop`
  and `PauseGame` state bounds and relations rather than their exact new
  state (see "Left out").

`Math.random()` is replaced by caller-supplied draws. For each ghost on each
tick, a `GhostRoll` carries:

- `chase`, standing for `Math.random() < 0.7`;
- `pick`, a real in [0, 1) standing for the draw at pacman.js:269.

The random index is `floor(pick * n)`, with `pick` a real number and the
product taken exactly.
`GhostMayWanderAnywhere` shows that every candidate can be selected.

The model keeps these behaviours of the code, which a reader might not
expect:

- An illegal turn request stays buffered and is retried on later ticks.
- `resetGameState` rewrites only cells that still hold a pellet, and such a
  cell already holds its maze kind. On every board the game can reach, the
  reset therefore changes no cell: eaten pellets stay eaten. After a won
  game, `StartGame` begins on a board with no pellets, and the first logic
  tick ends the game again.
- `pauseGame` toggles the pause flag even when no game is running.
- Lives are decremented once per ghost on Pac-Man's cell. They can go below
  zero in the game-over tick (`TwoGhostsOnLastLife`).

A ghost's forced reverse is taken without a legality check; it leads back
to the cell the ghost came from, so ghosts never leave the board either
(`GhostStaysOnBoard`). Neither Pac-Man nor a ghost ever uses the tunnel
wrap, because `canMove` refuses a step off the side edges. An eaten ghost
goes to (9, 10) and keeps its heading; that cell, and three of the four
spawn cells, are walls of the maze (`SpawnCells`). A lost life does not clear the
buffered turn.

## Model

| member | source | states |
|---|---|---|
| `Grid.WrapColumn` | target/classes/static/pacman.js:187-188 | the tunnel wrap (Pac-Man's at these lines, the ghosts' at lines 279-280) always yields a column in 0..18; for a column one step off the board (-1..19) it equals that column mod 19, so -1 becomes 18 and 19 becomes 0 |
| `Grid.Reverse` | target/classes/static/pacman.js:226-231 | the reversed direction has both unit components negated |
| `Grid.ReverseIsUnique` | target/classes/static/pacman.js:220 | the ghosts' component-wise "is reverse" test holds for exactly one direction, the reverse, and reversing twice gives back the direction |
| `Grid.Rank` | target/classes/static/pacman.js:20-25 | each direction's position in the enumeration order UP, DOWN, LEFT, RIGHT |
| `Grid.ResetCell` | target/classes/static/pacman.js:143-153 | the reset keeps an empty or wall cell as it is and turns any other cell into a pellet kind |
| `Grid.PelletKind` | target/classes/static/pacman.js:146-152 | the kind the reset writes is always a pellet kind |
| `Grid.MazePelletKinds` | target/classes/static/pacman.js:28-50 | the maze's power pellets are exactly at (1,2), (17,2), (1,15) and (17,15); every other pellet cell of the maze holds 2 |
| `Grid.ResetCellFollowsMaze` | target/classes/static/pacman.js:141-155 | on a cell consistent with the maze, the reset puts an uneaten pellet back to its maze kind and leaves empty and wall cells untouched, so an eaten pellet is not restored and the cell does not change at all |
| `Grid.ResetCellIdempotent` | target/classes/static/pacman.js:141-155 | rewriting a cell twice is rewriting it once, and the rewrite leaves a cell unchanged without a pellet exactly when it is empty or a wall |
| `Grid.PelletPoints` | target/classes/static/pacman.js:192-202 | a cell scores points exactly when it holds a pellet or a power pellet |
| `Grid.Distance` | target/classes/static/pacman.js:242 | the Manhattan distance is non-negative and zero exactly on the same cell |
| `Timing.IsLogicFrame` | target/classes/static/pacman.js:500 | none of the 7 frames after a frame that runs a logic tick runs one |
| `Timing.TickInEveryPeriod` | target/classes/static/pacman.js:500 | any 8 consecutive frames contain a frame that runs a logic tick |
| `Timing.OneTickPerPeriod` | target/classes/static/pacman.js:500 | of any 8 consecutive frames at most one runs a logic tick |
| `Timing.DecayPower` | target/classes/static/pacman.js:502-507 | the tick-start countdown keeps the power invariant (flag up exactly while ticks remain), takes one tick off an active timer and leaves an inactive pair alone |
| `Timing.CountdownLasts` | target/classes/static/pacman.js:502-507 | from a countdown of t ticks the flag stays up for the next t - 1 tick starts, with t - k ticks left after k of them, and drops at the t-th |
| `Timing.DecayStopsWhenInactive` | target/classes/static/pacman.js:502 | an inactive power state is unchanged by any number of tick starts |
| `Timing.PowerModeDuration` | target/classes/static/pacman.js:502-507 | the duration is floor(300 / 8) = 37, and after a power pellet the flag is up at exactly the next 36 tick starts |
| `Actors.Respawn` | target/classes/static/pacman.js:300-302 | after a lost life Pac-Man is at (9, 15) facing RIGHT, and its buffered turn and animation state are kept |
| `Actors.SpawnsAreOk` | target/classes/static/pacman.js:135-138 | every ghost spawns on the board with the cell behind its heading on the board too |
| `Actors.SpawnCells` | target/classes/static/pacman.js:38-39 | Blinky spawns on an empty corridor cell, while the other three spawn cells and the pen (9, 10) are walls of the maze |
| `Actors.StartIsOpen` | target/classes/static/pacman.js:129-130 | Pac-Man's start cell (9, 15) is on the board and is a corridor of the maze |
| `Choice.Distances` | target/classes/static/pacman.js:239-261 | one non-negative distance per candidate |
| `Choice.FirstMinIsUnique` | target/classes/static/pacman.js:239-247 | the first position of the minimum is unique |
| `Choice.FirstMaxIsUnique` | target/classes/static/pacman.js:257-265 | the first position of the maximum is unique |
| `Choice.ArgMinFirst` | target/classes/static/pacman.js:236-249 | the reference chase choice is the first position holding the smallest distance |
| `Choice.ArgMaxFirst` | target/classes/static/pacman.js:254-267 | the reference flee choice is the first position holding the largest distance |
| `Choice.Closest` | target/classes/static/pacman.js:236-249 | the chase scan, starting from an infinite minimum and replacing only on a strictly smaller distance, returns the first closest candidate |
| `Choice.Farthest` | target/classes/static/pacman.js:254-267 | the flee scan, starting from a maximum of 0 rather than minus infinity, still returns the first farthest candidate |
| `Choice.RollIndex` | target/classes/static/pacman.js:269 | floor(pick * n) is a valid index among the n candidates |
| `Choice.RollReachesEveryIndex` | target/classes/static/pacman.js:269 | every candidate index k is selected by some draw, namely k / n |
| `Choice.Choose` | target/classes/static/pacman.js:226-271 | with no candidate the ghost reverses; otherwise the direction taken is one of the candidates |
| `Choice.PickDirection` | target/classes/static/pacman.js:226-271 | the direction choice agrees with the reference choice: reverse with no candidate, chase when `chase` and not power mode, flee in power mode, and otherwise the drawn candidate |
| `Collisions.Eaten` | target/classes/static/pacman.js:292-293 | an eaten ghost keeps its heading and lands on the board with the cell behind it on the board, whatever that heading is |
| `Collisions.LoseLife` | target/classes/static/pacman.js:296-306 | losing a life with lives to spare takes one life, keeps the score, the running flag and the buffered turn, and leaves no ghost on Pac-Man's cell |
| `Collisions.Collide` | target/classes/static/pacman.js:285-312 | one ghost's collision keeps the roster size |
| `Collisions.ResolveFrom` | target/classes/static/pacman.js:284-315 | across the roster the score never falls, lives never rise, a stopped game stays stopped, a running game keeps lives above 0, Pac-Man is either untouched or respawned, and ghosts on the board with the cell behind them on the board stay so |
| `Collisions.CountCatches` | target/classes/static/pacman.js:286 | the number of ghosts on Pac-Man's cell is at most the roster size and is zero exactly when no ghost is there |
| `Collisions.NoCatchNoChange` | target/classes/static/pacman.js:286 | with no ghost on Pac-Man's cell the collision pass changes nothing |
| `Collisions.PowerModeEatsGhosts` | target/classes/static/pacman.js:287-294 | in power mode each ghost on Pac-Man's cell scores 200 and only those ghosts go to (9, 10) with their heading kept; Pac-Man, lives and the running flag are unchanged |
| `Collisions.SkipMisses` | target/classes/static/pacman.js:286 | ghosts not on Pac-Man's cell are passed over |
| `Collisions.LifeLostWithLivesLeft` | target/classes/static/pacman.js:295-307 | with more than one life, the first ghost on Pac-Man's cell costs exactly one life and respawns Pac-Man and all four ghosts, and no later ghost collides |
| `Collisions.LastLifeLost` | target/classes/static/pacman.js:295-311 | with at most one life, each of the n ghosts on Pac-Man's cell takes a life and the game stops, with no respawn |
| `Collisions.TwoGhostsOnLastLife` | target/classes/static/pacman.js:296-311 | one life and two ghosts on Pac-Man's cell leave lives at -1 and the game stopped |
| `Engine.Game.constructor` | target/classes/static/pacman.js:10-72 | the page's initial state: the maze as declared, score 0, lives 3, no power mode, stopped and unpaused, Pac-Man and the ghosts at their spawns |
| `Engine.Game.CanMove` | target/classes/static/pacman.js:161-172 | a legal step lands on the board and not on a wall, and a step off either side edge is refused, so the tunnel is never entered |
| `Engine.Game.CanMoveFollowsMaze` | target/classes/static/pacman.js:161-172 | a step is legal exactly when its target is on the board and is not a wall of the maze |
| `Engine.Game.PowerPelletsKept` | target/classes/static/pacman.js:190-202 | the power-pellet cells are those a cell-by-cell description names |
| `Engine.Game.NoPelletsLeftIsEmptySet` | target/classes/static/pacman.js:317-327 | the board has no pellet cell exactly when the set of pellet cells is empty |
| `Engine.Game.CheckWin` | target/classes/static/pacman.js:317-327 | the scan reports a win exactly when no cell holds 2 or 3 |
| `Engine.Game.PacmanStep` | target/classes/static/pacman.js:176-209 | the new heading is the old or the requested one, the request is kept or consumed, Pac-Man leaves its cell only by a legal step, and the mouth flips exactly when the incremented counter is a multiple of 4 |
| `Engine.Game.TurnRequestBuffered` | target/classes/static/pacman.js:176-179 | a buffered turn is taken and cleared exactly when it is legal; an illegal one stays buffered and the heading is kept |
| `Engine.Game.PacmanStaysOnBoard` | target/classes/static/pacman.js:182-188 | Pac-Man moves one cell along its heading when that is legal and stays otherwise; it never leaves the board or enters a wall, so the tunnel wrap never fires for it |
| `Engine.Game.StepPacman` | target/classes/static/pacman.js:176-209 | the turn, step and animation code yields Pac-Man's specified step and reports whether Pac-Man advanced |
| `Engine.Game.MovePacman` | target/classes/static/pacman.js:174-210 | Pac-Man becomes its specified step; it scores the points of the cell entered, which becomes empty; a power pellet starts power mode for 37 ticks and nothing else does; every other cell is unchanged; the pellet set only shrinks; the power-pellet set changes exactly when a power pellet is eaten |
| `Engine.Game.EatPellet` | target/classes/static/pacman.js:190-202 | a pellet becomes empty and scores 10; a power pellet becomes empty, scores 50 and sets the timer to 37; any other cell and the rest of the board are unchanged |
| `Engine.Game.RequestDirection` | target/classes/static/pacman.js:75-92 | a turn request is recorded only while a game runs unpaused; otherwise nothing changes |
| `Engine.Game.FilterTurns` | target/classes/static/pacman.js:217-224 | the kept directions are exactly the listed ones that are legal and not the reverse, in their listed order |
| `Engine.Game.Candidates` | target/classes/static/pacman.js:215-224 | the candidates are exactly the legal directions other than the reverse of the heading, in the order UP, DOWN, LEFT, RIGHT |
| `Engine.Game.GhostStep` | target/classes/static/pacman.js:274-280 | the ghost moves one cell along its chosen direction; the row is not wrapped and the column is wrapped into 0..18 |
| `Engine.Game.GhostReversesOnlyWhenForced` | target/classes/static/pacman.js:226-231 | a ghost reverses exactly when it has no candidate, and otherwise takes a legal candidate |
| `Engine.Game.GhostStaysOnBoard` | target/classes/static/pacman.js:226-280 | a ghost on the board with the cell behind it on the board stays so after its step, moving one cell along its new heading with no wrap |
| `Engine.Game.GhostPolicy` | target/classes/static/pacman.js:234-270 | in power mode the ghost takes the first farthest candidate; otherwise with `chase` the first closest one, and without it the candidate the draw selects |
| `Engine.Game.GhostMayWanderAnywhere` | target/classes/static/pacman.js:269 | outside power mode and without `chase`, every candidate is taken for some draw |
| `Engine.Game.PossibleDirections` | target/classes/static/pacman.js:215-224 | the candidate scan returns the candidate list |
| `Engine.Game.MoveGhost` | target/classes/static/pacman.js:213-281 | one ghost's turn returns its specified step |
| `Engine.Game.MoveGhosts` | target/classes/static/pacman.js:212-282 | every ghost i takes its specified step with draw i, against the current Pac-Man and power mode |
| `Engine.Game.CollideWith` | target/classes/static/pacman.js:285-312 | ghost i's collision changes the state as the collision function says |
| `Engine.Game.CheckCollisions` | target/classes/static/pacman.js:284-315 | the state after the pass is the fold of the ghosts over the state before it, and the session invariant holds |
| `Engine.Game.ResetGameState` | target/classes/static/pacman.js:121-159 | score 0, lives 3, no power mode, frame 0, Pac-Man at (9, 15) facing RIGHT with no buffered turn, the ghosts at their spawns; each cell is rewritten by the reset rule, which on a reachable board changes no cell, so the board and the pellet set are unchanged |
| `Engine.Game.RestorePellets` | target/classes/static/pacman.js:141-155 | each uneaten pellet goes back to its maze kind and every other cell is unchanged; as an uneaten pellet already holds its maze kind, no cell changes |
| `Engine.Game.RestoreRow` | target/classes/static/pacman.js:142-154 | one row is rewritten by the reset rule and the other rows are untouched |
| `Engine.Game.Advance` | target/classes/static/pacman.js:501-511 | the power timer counts down once before anything moves, unless a power pellet was eaten, which restarts it; Pac-Man takes its specified step and scores and empties the cell entered; then each ghost takes its specified step against Pac-Man's new position |
| `Engine.Game.Tick` | target/classes/static/pacman.js:500-521 | a logic tick keeps the session invariant; the score never falls and lives never rise; a stopped game stays stopped; pellets only disappear; the power state is the countdown or a fresh start; the game stops when no pellet is left |
| `Engine.Game.GameLoop` | target/classes/static/pacman.js:494-522 | a stopped or paused game is untouched; otherwise the frame counter advances; off-tick frames change nothing else; the number of pellets never increases; a tick that clears the board stops the game |
| `Engine.Game.StartGame` | target/classes/static/pacman.js:95-102 | a running game is untouched; a stopped one is reset, marked running and unpaused, and has had its first frame, which is not a logic tick |
| `Engine.Game.PauseGame` | target/classes/static/pacman.js:104-109 | the pause flag toggles; pausing, or toggling while stopped, changes nothing else; resuming a running game runs one frame |
| `Engine.Game.ResetGame` | target/classes/static/pacman.js:111-119 | the game is stopped, unpaused and reset |

## Left out

- Drawing is not modelled: `drawGame`, the logo, the mouth angle, `updateScore`, `updateLives` and the `alert` messages. These are canvas and DOM output with no effect on the state.
- `requestAnimationFrame` and `cancelAnimationFrame` scheduling is not modelled. One call of `GameLoop` is one frame, and the chain of callbacks is not modelled. This also leaves out a second callback chain that could start when the game is resumed before the pending frame of the paused chain fires.
- The 0.7 probability and the uniform distribution of `Math.random()` are not modelled. The draws are parameters, and the model proves which choice each draw leads to under exact real arithmetic.
- Choice.RollIndex: the draw is a real and `pick * n` is computed exactly; the IEEE-754 rounding of `Math.random() * n` is not modelled. The two can differ: for n = 3 and the double just below 1/3, the rounded product is 1.0 and the code picks index 1, while `RollIndex` gives 0. Both still give an index below n, and every index is reachable under both.
- The keyboard event wiring is not modelled. Only its effect is modelled, as `RequestDirection`.
- Ghost colours and names are not modelled, since they are display data.
- `src/main/java/com/games/pacman/controller/GameController.java` is not modelled. It only returns a view name.
- Collisions.Collide: its contract states only that the roster size is kept. Its effect is stated by the lemmas about the fold: `PowerModeEatsGhosts`, `LifeLostWithLivesLeft` and `LastLifeLost`.
- Engine.Game.Tick: its contract gives bounds and the power and pellet relations, not the exact new positions. Those are stated by the contracts of the methods it calls: `MovePacman`, `MoveGhosts` and `CheckCollisions`.
- Engine.Game.GameLoop: on a tick it states the same bounds as `Tick`, not the exact new state.
- Engine.Game.PauseGame: when it resumes a game, it states only the frame counter and the score and lives bounds that `GameLoop` gives.
- Engine.Game.MovePacman: the mouth animation is computed before the pellet is eaten, while the source computes it after. The two touch disjoint state, so the final state is the same.
- Engine.Game.StartGame: the running and paused flags are raised after the reset rather than before it. The reset neither reads nor writes them.
