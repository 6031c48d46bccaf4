/**
  The game session: the board array, Pac-Man, the ghosts and the scalar
  state (score, lives, power mode, frame counter, running and paused
  flags), with the operations the game loop runs on it.
*/
module Engine {
  import opened Wrappers
  import opened Grid
  import opened Timing
  import opened Actors
  import opened Choice
  import opened Collisions

  /** A fixed draw for frames that cannot reach a logic tick. */
  const IDLE_ROLLS: seq<GhostRoll> := [GhostRoll(false, 0.0), GhostRoll(false, 0.0), GhostRoll(false, 0.0), GhostRoll(false, 0.0)]

  class Game {
    /** `gameMap`, indexed [y, x]. */
    const board: array2<int>
    var score: int
    var lives: int
    var powerMode: bool
    var powerModeTimer: int
    var frameCount: int
    var gameRunning: bool
    var gamePaused: bool
    var pacman: Pacman
    var ghosts: seq<Ghost>

    predicate BoardShape() {
      board.Length0 == ROWS && board.Length1 == COLS
    }

    /** The session invariant. */
    ghost predicate Valid()
      reads this, board
    {
      && BoardShape()
      && (forall y, x :: 0 <= y < ROWS && 0 <= x < COLS ==> FollowsMaze(board[y, x], x, y))
      && InBounds(pacman.x, pacman.y) && board[pacman.y, pacman.x] != WALL
      && |ghosts| == |GHOST_SPAWNS|
      && (forall g :: g in ghosts ==> GhostOk(g))
      && score >= 0
      && ValidPower(PowerState(powerMode, powerModeTimer))
      && frameCount >= 0
      && (gameRunning ==> lives > 0)
    }

    /** The state of the page after it has loaded. */
    constructor ()
      ensures Valid() && fresh(board)
      ensures forall y, x :: 0 <= y < ROWS && 0 <= x < COLS ==> board[y, x] == MazeCell(x, y)
      ensures score == 0 && lives == 3 && !powerMode && powerModeTimer == 0 && frameCount == 0
      ensures !gameRunning && !gamePaused
      ensures pacman == PACMAN_START && ghosts == GHOST_SPAWNS
    {
      board := new int[ROWS, COLS]((y, x) requires 0 <= y < ROWS && 0 <= x < COLS => MazeCell(x, y));
      score, lives := 0, 3;
      powerMode, powerModeTimer := false, 0;
      frameCount := 0;
      gameRunning, gamePaused := false, false;
      pacman := PACMAN_START;
      ghosts := GHOST_SPAWNS;
      StartIsOpen();
      SpawnsAreOk();
    }

    // ---------------------------------------------------------------
    // Board queries

    /** A step from (x, y) in direction d stays on the board and does not
        enter a wall. The test is made on the unwrapped target, so a step
        off either side edge, into the tunnel, is refused. */
    predicate CanMove(x: int, y: int, d: Direction): (ok: bool)
      requires BoardShape()
      reads board
      ensures ok ==> InBounds(x + d.DX(), y + d.DY()) && board[y + d.DY(), x + d.DX()] != WALL
      ensures x + d.DX() == -1 || x + d.DX() == COLS ==> !ok
    {
      var nx, ny := x + d.DX(), y + d.DY();
      InBounds(nx, ny) && board[ny, nx] != WALL
    }

    /** Legality of a step is fixed for the whole session: it is decided by
        the maze's walls alone. */
    lemma CanMoveFollowsMaze(x: int, y: int, d: Direction)
      requires Valid()
      ensures CanMove(x, y, d) <==>
        InBounds(x + d.DX(), y + d.DY()) && MazeCell(x + d.DX(), y + d.DY()) != WALL
    {
    }

    /** The cells still holding a pellet of either kind, as (x, y). */
    ghost function Pellets(): set<(int, int)>
      requires BoardShape()
      reads board
    {
      set y, x | 0 <= y < ROWS && 0 <= x < COLS && IsPellet(board[y, x]) :: (x, y)
    }

    /** The cells still holding a power pellet, as (x, y). */
    ghost function PowerPellets(): set<(int, int)>
      requires BoardShape()
      reads board
    {
      set y, x | 0 <= y < ROWS && 0 <= x < COLS && board[y, x] == POWER_PELLET :: (x, y)
    }

    /** Every cell holds a power pellet exactly when it is listed in
        `before`: the power pellets are those `before` names. */
    lemma PowerPelletsKept(before: set<(int, int)>)
      requires BoardShape()
      requires forall y, x :: 0 <= y < ROWS && 0 <= x < COLS ==>
        (board[y, x] == POWER_PELLET <==> (x, y) in before)
      requires forall c :: c in before ==> InBounds(c.0, c.1)
      ensures PowerPellets() == before
    {
    }

    predicate NoPelletsLeft()
      requires BoardShape()
      reads board
    {
      forall y, x :: 0 <= y < ROWS && 0 <= x < COLS ==> !IsPellet(board[y, x])
    }

    lemma NoPelletsLeftIsEmptySet()
      requires BoardShape()
      ensures NoPelletsLeft() <==> Pellets() == {}
    {
      if !NoPelletsLeft() {
        var y, x :| 0 <= y < ROWS && 0 <= x < COLS && IsPellet(board[y, x]);
        assert (x, y) in Pellets();
      }
    }

    /** `checkWin`: scans the board row by row for a pellet. */
    method CheckWin() returns (won: bool)
      requires BoardShape()
      ensures won <==> NoPelletsLeft()
    {
      for y := 0 to ROWS
        invariant forall j, i :: 0 <= j < y && 0 <= i < COLS ==> !IsPellet(board[j, i])
      {
        for x := 0 to COLS
          invariant forall j, i :: 0 <= j < y && 0 <= i < COLS ==> !IsPellet(board[j, i])
          invariant forall i :: 0 <= i < x ==> !IsPellet(board[y, i])
        {
          if board[y, x] == PELLET || board[y, x] == POWER_PELLET {
            return false;
          }
        }
      }
      return true;
    }

    // ---------------------------------------------------------------
    // Pac-Man

    /** Whether the buffered request is taken this tick. */
    predicate TakesTurn(p: Pacman)
      requires BoardShape()
      reads board
    {
      p.nextDirection.Some? && CanMove(p.x, p.y, p.nextDirection.value)
    }

    function Heading(p: Pacman): Direction
      requires BoardShape()
      reads board
    {
      if TakesTurn(p) then p.nextDirection.value else p.direction
    }

    /** Whether Pac-Man leaves its cell this tick. */
    predicate Advances(p: Pacman)
      requires BoardShape()
      reads board
    {
      CanMove(p.x, p.y, Heading(p))
    }

    /** Pac-Man's record after one tick of `movePacman`: the new heading is
        the old one or the requested one, the request is either kept or
        consumed, Pac-Man leaves its cell only by a legal step, and the
        mouth flips on every fourth tick of the animation counter. */
    function PacmanStep(p: Pacman): (r: Pacman)
      requires BoardShape()
      reads board
      ensures r.direction == p.direction || Some(r.direction) == p.nextDirection
      ensures r.nextDirection == None || r.nextDirection == p.nextDirection
      ensures (r.x, r.y) != (p.x, p.y) ==> CanMove(p.x, p.y, r.direction)
      ensures r.animationCounter == p.animationCounter + 1
      ensures r.mouthOpen != p.mouthOpen <==> r.animationCounter % 4 == 0
    {
      var dir := Heading(p);
      var moves := CanMove(p.x, p.y, dir);
      var counter := p.animationCounter + 1;
      Pacman(
        if moves then WrapColumn(p.x + dir.DX()) else p.x,
        if moves then p.y + dir.DY() else p.y,
        dir,
        if TakesTurn(p) then None else p.nextDirection,
        if counter % 4 == 0 then !p.mouthOpen else p.mouthOpen,
        counter)
    }

    /** What the cell Pac-Man enters this tick holds; EMPTY when it stays
        where it is. */
    function CellEntered(p: Pacman): int
      requires BoardShape()
      reads board
    {
      if Advances(p) then
        var r := PacmanStep(p);
        board[r.y, r.x]
      else EMPTY
    }

    /** A requested turn is taken, and the request cleared, exactly when it
        is legal; an illegal request stays buffered for later ticks. */
    lemma TurnRequestBuffered(p: Pacman)
      requires BoardShape()
      ensures var r := PacmanStep(p);
        && (p.nextDirection.Some? && CanMove(p.x, p.y, p.nextDirection.value) ==>
              r.direction == p.nextDirection.value && r.nextDirection == None)
        && (p.nextDirection.None? || !CanMove(p.x, p.y, p.nextDirection.value) ==>
              r.direction == p.direction && r.nextDirection == p.nextDirection)
    {
    }

    /** Pac-Man moves one cell in its heading when that is legal and stays
        put otherwise; it never leaves the board, never enters a wall, and
        never goes through the tunnel (its wrap never fires). */
    lemma PacmanStaysOnBoard(p: Pacman)
      requires BoardShape()
      requires InBounds(p.x, p.y) && board[p.y, p.x] != WALL
      ensures var r := PacmanStep(p);
        && InBounds(r.x, r.y) && board[r.y, r.x] != WALL
        && r.x == p.x + (if Advances(p) then Heading(p).DX() else 0)
        && r.y == p.y + (if Advances(p) then Heading(p).DY() else 0)
    {
    }

    /** `movePacman`: take the buffered turn if it is legal, step if the
        heading is legal, eat what the new cell holds, animate the mouth. */
    method MovePacman() returns (ghost entered: int)
      requires Valid()
      modifies this`pacman, this`score, this`powerMode, this`powerModeTimer, board
      ensures Valid()
      ensures pacman == old(PacmanStep(pacman)) && entered == old(CellEntered(pacman))
      ensures score == old(score) + PelletPoints(entered)
      ensures entered == POWER_PELLET ==> powerMode && powerModeTimer == POWER_DURATION
      ensures entered != POWER_PELLET ==> powerMode == old(powerMode) && powerModeTimer == old(powerModeTimer)
      ensures forall y, x :: 0 <= y < ROWS && 0 <= x < COLS ==>
        board[y, x] == if x == pacman.x && y == pacman.y && IsPellet(entered) then EMPTY else old(board[y, x])
      ensures entered == POWER_PELLET <==> PowerPellets() != old(PowerPellets())
      ensures Pellets() <= old(Pellets())
    {
      entered := CellEntered(pacman);
      PacmanStaysOnBoard(pacman);
      var moves;
      pacman, moves := StepPacman(pacman);
      if moves {
        EatPellet();
      }
    }

    /** The turn, the step and the mouth animation of `movePacman`; moves
        tells whether Pac-Man left its cell. */
    method StepPacman(p: Pacman) returns (r: Pacman, moves: bool)
      requires BoardShape()
      ensures r == PacmanStep(p) && moves == Advances(p)
    {
      r := p;
      if r.nextDirection.Some? && CanMove(r.x, r.y, r.nextDirection.value) {
        r := r.(direction := r.nextDirection.value, nextDirection := None);
      }
      moves := CanMove(r.x, r.y, r.direction);
      if moves {
        r := r.(x := WrapColumn(r.x + r.direction.DX()), y := r.y + r.direction.DY());
      }
      var counter := r.animationCounter + 1;
      r := r.(animationCounter := counter, mouthOpen := if counter % 4 == 0 then !r.mouthOpen else r.mouthOpen);
    }

    /** The pellet-eating part of `movePacman`, on the cell Pac-Man has just
        entered: a pellet becomes EMPTY and scores 10; a power pellet becomes
        EMPTY, scores 50 and (re)starts power mode for POWER_DURATION ticks;
        any other cell, and every other cell of the board, is unchanged. */
    method EatPellet()
      requires Valid()
      modifies this`score, this`powerMode, this`powerModeTimer, board
      ensures Valid()
      ensures var c := old(board[pacman.y, pacman.x]);
        && score == old(score) + PelletPoints(c)
        && (c == POWER_PELLET ==> powerMode && powerModeTimer == POWER_DURATION)
        && (c != POWER_PELLET ==> powerMode == old(powerMode) && powerModeTimer == old(powerModeTimer))
        && (c == POWER_PELLET <==> PowerPellets() != old(PowerPellets()))
      ensures forall y, x :: 0 <= y < ROWS && 0 <= x < COLS ==>
        board[y, x] == if x == pacman.x && y == pacman.y && IsPellet(old(board[y, x])) then EMPTY else old(board[y, x])
      ensures Pellets() <= old(Pellets())
    {
      ghost var powerBefore := PowerPellets();
      var cell := board[pacman.y, pacman.x];
      if cell == PELLET {
        board[pacman.y, pacman.x] := EMPTY;
        score := score + PELLET_POINTS;
        PowerPelletsKept(powerBefore);
      } else if cell == POWER_PELLET {
        board[pacman.y, pacman.x] := EMPTY;
        score := score + POWER_PELLET_POINTS;
        powerMode := true;
        powerModeTimer := POWER_DURATION;
        assert (pacman.x, pacman.y) in powerBefore - PowerPellets();
      }
    }

    /** `keydown`: record a turn request while the game is being played. */
    method RequestDirection(d: Direction)
      modifies this`pacman
      ensures !gameRunning || gamePaused ==> pacman == old(pacman)
      ensures gameRunning && !gamePaused ==> pacman == old(pacman).(nextDirection := Some(d))
    {
      if !gameRunning || gamePaused {
        return;
      }
      pacman := pacman.(nextDirection := Some(d));
    }

    // ---------------------------------------------------------------
    // Ghosts

    /** The directions of ds, in order, that a ghost at g may take without
        reversing. */
    function FilterTurns(g: Ghost, ds: seq<Direction>): (r: seq<Direction>)
      requires BoardShape()
      reads board
      ensures forall d :: d in r <==> d in ds && CanMove(g.x, g.y, d) && !IsReverseOf(d, g.direction)
      ensures (forall i, j :: 0 <= i < j < |ds| ==> Rank(ds[i]) < Rank(ds[j])) ==>
                (forall i, j :: 0 <= i < j < |r| ==> Rank(r[i]) < Rank(r[j]))
      decreases |ds|
    {
      if ds == [] then []
      else
        var d := ds[|ds| - 1];
        RankBelowLast(ds);
        FilterTurns(g, ds[..|ds| - 1]) + (if CanMove(g.x, g.y, d) && !IsReverseOf(d, g.direction) then [d] else [])
    }

    /** In a rank-ordered list every earlier direction ranks below the last. */
    static lemma RankBelowLast(ds: seq<Direction>)
      requires ds != []
      ensures (forall i, j :: 0 <= i < j < |ds| ==> Rank(ds[i]) < Rank(ds[j])) ==>
                forall d :: d in ds[..|ds| - 1] ==> Rank(d) < Rank(ds[|ds| - 1])
    {
      forall d | d in ds[..|ds| - 1]
        ensures (forall i, j :: 0 <= i < j < |ds| ==> Rank(ds[i]) < Rank(ds[j])) ==> Rank(d) < Rank(ds[|ds| - 1])
      {
        var i :| 0 <= i < |ds| - 1 && ds[..|ds| - 1][i] == d;
        assert ds[i] == d;
      }
    }

    /** `possibleDirections`: the legal non-reversing moves in the order UP,
        DOWN, LEFT, RIGHT. */
    function Candidates(g: Ghost): (r: seq<Direction>)
      requires BoardShape()
      reads board
      ensures forall d :: d in r <==> CanMove(g.x, g.y, d) && d != Reverse(g.direction)
      ensures forall i, j :: 0 <= i < j < |r| ==> Rank(r[i]) < Rank(r[j])
    {
      forall d ensures d in DIRECTIONS && (IsReverseOf(d, g.direction) <==> d == Reverse(g.direction)) {
        ReverseIsUnique(d, g.direction);
      }
      FilterTurns(g, DIRECTIONS)
    }

    /** The direction a ghost takes this tick. */
    function ChosenDirection(g: Ghost, px: int, py: int, powerMode: bool, roll: GhostRoll): Direction
      requires BoardShape() && ValidRoll(roll)
      reads board
    {
      Choose(Candidates(g), g.direction, g.x, g.y, px, py, powerMode, roll.chase, roll.pick)
    }

    /** A ghost after one tick of `moveGhosts`, Pac-Man being at (px, py). */
    function GhostStep(g: Ghost, px: int, py: int, powerMode: bool, roll: GhostRoll): (r: Ghost)
      requires BoardShape() && ValidRoll(roll)
      reads board
      ensures r.direction == ChosenDirection(g, px, py, powerMode, roll)
      ensures r.y == g.y + r.direction.DY()
      ensures 0 <= r.x < COLS
      ensures -1 <= g.x + r.direction.DX() <= COLS ==> r.x == (g.x + r.direction.DX()) % COLS
    {
      var dir := ChosenDirection(g, px, py, powerMode, roll);
      Ghost(WrapColumn(g.x + dir.DX()), g.y + dir.DY(), dir)
    }

    /** A ghost reverses exactly when no other legal direction exists; that
        forced reverse is taken without a legality check. Otherwise its new
        heading is one of the candidates and is legal. */
    lemma GhostReversesOnlyWhenForced(g: Ghost, px: int, py: int, powerMode: bool, roll: GhostRoll)
      requires BoardShape() && ValidRoll(roll)
      ensures var dir := ChosenDirection(g, px, py, powerMode, roll);
        && (dir == Reverse(g.direction) <==> Candidates(g) == [])
        && (Candidates(g) != [] ==> dir in Candidates(g) && CanMove(g.x, g.y, dir))
    {
      var cands := Candidates(g);
      var dir := ChosenDirection(g, px, py, powerMode, roll);
      if cands != [] {
        assert dir in cands;
      }
    }

    /** A ghost on the board with its back to a cell of the board stays so:
        it steps one cell in its new heading, either to a legal cell or back
        to the cell it came from, so its column never needs the tunnel wrap
        either. */
    lemma GhostStaysOnBoard(g: Ghost, px: int, py: int, powerMode: bool, roll: GhostRoll)
      requires BoardShape() && ValidRoll(roll)
      requires GhostOk(g)
      ensures var r := GhostStep(g, px, py, powerMode, roll);
        && GhostOk(r)
        && r.x == g.x + r.direction.DX() && r.y == g.y + r.direction.DY()
        && r.x - r.direction.DX() == g.x && r.y - r.direction.DY() == g.y
    {
      GhostReversesOnlyWhenForced(g, px, py, powerMode, roll);
    }

    /** The three policies. In power mode the ghost takes the first
        candidate farthest from Pac-Man; otherwise with `chase` the first
        candidate closest to Pac-Man, and without it the candidate at
        floor(pick * n). */
    lemma GhostPolicy(g: Ghost, px: int, py: int, powerMode: bool, roll: GhostRoll)
      requires BoardShape() && ValidRoll(roll)
      requires Candidates(g) != []
      ensures var cands := Candidates(g);
        var ds := Distances(cands, g.x, g.y, px, py);
        var dir := ChosenDirection(g, px, py, powerMode, roll);
        && (powerMode ==> exists k :: IsFirstMax(ds, k) && dir == cands[k])
        && (!powerMode && roll.chase ==> exists k :: IsFirstMin(ds, k) && dir == cands[k])
        && (!powerMode && !roll.chase ==> dir == cands[RollIndex(roll.pick, |cands|)])
    {
      var cands := Candidates(g);
      var ds := Distances(cands, g.x, g.y, px, py);
      if powerMode {
        assert IsFirstMax(ds, ArgMaxFirst(ds));
      } else if roll.chase {
        assert IsFirstMin(ds, ArgMinFirst(ds));
      }
    }

    /** Without power mode and without `chase`, every candidate can be the
        one taken. */
    lemma GhostMayWanderAnywhere(g: Ghost, px: int, py: int, k: nat)
      requires BoardShape() && k < |Candidates(g)|
      ensures var n := |Candidates(g)|;
        var roll := GhostRoll(false, k as real / n as real);
        ValidRoll(roll) && ChosenDirection(g, px, py, false, roll) == Candidates(g)[k]
    {
      RollReachesEveryIndex(k, |Candidates(g)|);
    }

    /** The candidate scan of `moveGhosts`: each direction in turn, kept
        when it is legal and is not the reverse of the ghost's heading. */
    method PossibleDirections(g: Ghost) returns (possible: seq<Direction>)
      requires BoardShape()
      ensures possible == Candidates(g)
    {
      possible := [];
      for i := 0 to |DIRECTIONS|
        invariant possible == FilterTurns(g, DIRECTIONS[..i])
      {
        var dir := DIRECTIONS[i];
        assert DIRECTIONS[..i + 1][..i] == DIRECTIONS[..i];
        if CanMove(g.x, g.y, dir) {
          if !IsReverseOf(dir, g.direction) {
            possible := possible + [dir];
          }
        }
      }
      assert DIRECTIONS[..|DIRECTIONS|] == DIRECTIONS;
    }

    /** One ghost's turn of `moveGhosts`, against the current Pac-Man and
        power mode. */
    method MoveGhost(g: Ghost, roll: GhostRoll) returns (moved: Ghost)
      requires BoardShape() && ValidRoll(roll)
      ensures moved == GhostStep(g, pacman.x, pacman.y, powerMode, roll)
    {
      var possible := PossibleDirections(g);
      var direction := PickDirection(possible, g.direction, g.x, g.y, pacman.x, pacman.y,
                                     powerMode, roll.chase, roll.pick);
      moved := Ghost(WrapColumn(g.x + direction.DX()), g.y + direction.DY(), direction);
    }

    /** `moveGhosts`: every ghost takes its turn, ghost i with draw rolls[i]. */
    method MoveGhosts(rolls: seq<GhostRoll>)
      requires Valid() && ValidRolls(rolls)
      modifies this`ghosts
      ensures Valid()
      ensures |ghosts| == |old(ghosts)|
      ensures forall i :: 0 <= i < |ghosts| ==>
        ghosts[i] == GhostStep(old(ghosts[i]), pacman.x, pacman.y, powerMode, rolls[i])
    {
      for i := 0 to |ghosts|
        invariant |ghosts| == |old(ghosts)|
        invariant forall j :: 0 <= j < i ==>
          ghosts[j] == GhostStep(old(ghosts[j]), pacman.x, pacman.y, powerMode, rolls[j])
        invariant forall j :: i <= j < |ghosts| ==> ghosts[j] == old(ghosts[j])
      {
        var moved := MoveGhost(ghosts[i], rolls[i]);
        ghosts := ghosts[i := moved];
      }
      forall g | g in ghosts
        ensures GhostOk(g)
      {
        var j :| 0 <= j < |ghosts| && ghosts[j] == g;
        assert old(ghosts[j]) in old(ghosts);
        GhostStaysOnBoard(old(ghosts[j]), pacman.x, pacman.y, powerMode, rolls[j]);
      }
    }

    // ---------------------------------------------------------------
    // Collisions

    function Snapshot(): Outcome
      reads this
    {
      Outcome(pacman, ghosts, score, lives, gameRunning)
    }

    /** `checkCollisions`: the ghosts in roster order, each against the
        state the previous ones left. */
    method CheckCollisions()
      requires Valid()
      modifies this`pacman, this`ghosts, this`score, this`lives, this`gameRunning
      ensures Valid()
      ensures Snapshot() == ResolveFrom(old(Snapshot()), 0, powerMode)
    {
      for i := 0 to |GHOST_SPAWNS|
        invariant |ghosts| == |GHOST_SPAWNS|
        invariant ResolveFrom(Snapshot(), i, powerMode) == ResolveFrom(old(Snapshot()), 0, powerMode)
      {
        CollideWith(i);
      }
      StartIsOpen();
    }

    /** Ghost i of `checkCollisions` against the current state. */
    method CollideWith(i: nat)
      requires i < |ghosts| == |GHOST_SPAWNS|
      modifies this`pacman, this`ghosts, this`score, this`lives, this`gameRunning
      ensures Snapshot() == Collide(old(Snapshot()), i, powerMode)
    {
      var gh := ghosts[i];
      if gh.x == pacman.x && gh.y == pacman.y {
        if powerMode {
          score := score + GHOST_POINTS;
          ghosts := ghosts[i := gh.(x := GHOST_PEN_X, y := GHOST_PEN_Y)];
        } else {
          lives := lives - 1;
          if lives > 0 {
            pacman := pacman.(x := PACMAN_START.x, y := PACMAN_START.y, direction := Right);
            ghosts := GHOST_SPAWNS;
          } else {
            gameRunning := false;
          }
        }
      }
    }

    // ---------------------------------------------------------------
    // Reset

    /** `resetGameState`: scalars, Pac-Man's position and heading and the
        ghost roster go back to their start values and the pellets are
        rewritten. Pac-Man's mouth and animation counter are kept. */
    method ResetGameState()
      requires Valid()
      modifies this`score, this`lives, this`powerMode, this`powerModeTimer, this`frameCount,
        this`pacman, this`ghosts, board
      ensures Valid()
      ensures score == 0 && lives == 3 && !powerMode && powerModeTimer == 0 && frameCount == 0
      ensures pacman == old(pacman).(x := PACMAN_START.x, y := PACMAN_START.y, direction := Right, nextDirection := None)
      ensures ghosts == GHOST_SPAWNS
      ensures forall y, x :: 0 <= y < ROWS && 0 <= x < COLS ==> board[y, x] == ResetCell(old(board[y, x]), x, y)
      ensures forall y, x :: 0 <= y < ROWS && 0 <= x < COLS ==> ResetCell(board[y, x], x, y) == board[y, x]
      ensures forall y, x :: 0 <= y < ROWS && 0 <= x < COLS ==> board[y, x] == old(board[y, x])
      ensures Pellets() == old(Pellets())
    {
      score, lives := 0, 3;
      powerMode, powerModeTimer := false, 0;
      frameCount := 0;
      pacman := pacman.(x := 9, y := 15, direction := Right, nextDirection := None);
      ghosts := [Ghost(9, 9, Up), Ghost(8, 10, Left), Ghost(10, 10, Right), Ghost(9, 10, Down)];
      RestorePellets();
      StartIsOpen();
      SpawnsAreOk();
    }

    /** The pellet loop of `resetGameState`: each pellet cell is rewritten
        with its kind from the maze (power pellets in the four corners
        (1, 2), (17, 2), (1, 15), (17, 15)); a cell already EMPTY stays
        EMPTY, so eaten pellets are not restored. On a board that follows
        the maze every uneaten pellet already holds its maze kind, so the
        loop writes back what each cell holds and the board is unchanged. */
    method RestorePellets()
      requires Valid()
      modifies board
      ensures Valid()
      ensures forall y, x :: 0 <= y < ROWS && 0 <= x < COLS ==> board[y, x] == ResetCell(old(board[y, x]), x, y)
      ensures forall y, x :: 0 <= y < ROWS && 0 <= x < COLS ==> ResetCell(board[y, x], x, y) == board[y, x]
      ensures forall y, x :: 0 <= y < ROWS && 0 <= x < COLS ==>
        (IsPellet(old(board[y, x])) ==> board[y, x] == MazeCell(x, y)) &&
        (!IsPellet(old(board[y, x])) ==> board[y, x] == old(board[y, x]))
      ensures forall y, x :: 0 <= y < ROWS && 0 <= x < COLS ==> board[y, x] == old(board[y, x])
      ensures Pellets() == old(Pellets())
    {
      for y := 0 to ROWS
        invariant forall j, i :: 0 <= j < y && 0 <= i < COLS ==> board[j, i] == ResetCell(old(board[j, i]), i, j)
        invariant forall j, i :: y <= j < ROWS && 0 <= i < COLS ==> board[j, i] == old(board[j, i])
      {
        RestoreRow(y);
      }
      forall y, x | 0 <= y < ROWS && 0 <= x < COLS
        ensures FollowsMaze(board[y, x], x, y) && ResetCell(board[y, x], x, y) == board[y, x]
        ensures IsPellet(old(board[y, x])) ==> board[y, x] == MazeCell(x, y)
        ensures !IsPellet(old(board[y, x])) ==> board[y, x] == old(board[y, x])
        ensures IsPellet(board[y, x]) <==> IsPellet(old(board[y, x]))
        ensures board[y, x] == old(board[y, x])
      {
        ResetCellFollowsMaze(old(board[y, x]), x, y);
        ResetCellIdempotent(old(board[y, x]), x, y);
      }
    }

    /** One row of the pellet loop of `resetGameState`. */
    method RestoreRow(y: int)
      requires BoardShape() && 0 <= y < ROWS
      modifies board
      ensures forall i :: 0 <= i < COLS ==> board[y, i] == ResetCell(old(board[y, i]), i, y)
      ensures forall j, i :: 0 <= j < ROWS && j != y && 0 <= i < COLS ==> board[j, i] == old(board[j, i])
    {
      for x := 0 to COLS
        invariant forall i :: 0 <= i < x ==> board[y, i] == ResetCell(old(board[y, i]), i, y)
        invariant forall j, i :: 0 <= j < ROWS && 0 <= i < COLS && (j != y || i >= x) ==> board[j, i] == old(board[j, i])
      {
        if board[y, x] == EMPTY {
        } else if board[y, x] != WALL {
          if (y == 2 && (x == 1 || x == 17)) || (y == 15 && (x == 1 || x == 17)) {
            board[y, x] := POWER_PELLET;
          } else {
            board[y, x] := PELLET;
          }
        }
      }
    }

    // ---------------------------------------------------------------
    // The loop and the controls

    /** One logic tick of `gameLoop`: the power timer, Pac-Man, the ghosts,
        the collisions and the win test, in that order. */
    method Tick(rolls: seq<GhostRoll>)
      requires Valid() && ValidRolls(rolls)
      modifies this`pacman, this`ghosts, this`score, this`lives, this`powerMode, this`powerModeTimer,
        this`gameRunning, board
      ensures Valid()
      ensures score >= old(score) && lives <= old(lives)
      ensures gameRunning ==> old(gameRunning)
      ensures Pellets() <= old(Pellets())
      ensures PowerPellets() == old(PowerPellets()) ==>
        PowerState(powerMode, powerModeTimer) == DecayPower(old(PowerState(powerMode, powerModeTimer)))
      ensures PowerPellets() != old(PowerPellets()) ==> PowerState(powerMode, powerModeTimer) == POWER_START
      ensures NoPelletsLeft() ==> !gameRunning
    {
      Advance(rolls);
      CheckCollisions();
      var won := CheckWin();
      if won {
        gameRunning := false;
      }
    }

    /** The movement half of a tick: the power timer counts down, then
        Pac-Man moves and eats, then the ghosts move. */
    method Advance(rolls: seq<GhostRoll>)
      requires Valid() && ValidRolls(rolls)
      modifies this`pacman, this`ghosts, this`score, this`powerMode, this`powerModeTimer, board
      ensures Valid()
      ensures pacman == old(PacmanStep(pacman))
      ensures |ghosts| == |old(ghosts)|
      ensures forall i :: 0 <= i < |ghosts| ==>
        ghosts[i] == GhostStep(old(ghosts[i]), pacman.x, pacman.y, powerMode, rolls[i])
      ensures score == old(score) + PelletPoints(old(CellEntered(pacman)))
      ensures forall y, x :: 0 <= y < ROWS && 0 <= x < COLS ==>
        board[y, x] == if x == pacman.x && y == pacman.y && IsPellet(old(CellEntered(pacman))) then EMPTY else old(board[y, x])
      ensures Pellets() <= old(Pellets())
      ensures PowerPellets() == old(PowerPellets()) ==>
        PowerState(powerMode, powerModeTimer) == DecayPower(old(PowerState(powerMode, powerModeTimer)))
      ensures PowerPellets() != old(PowerPellets()) ==> PowerState(powerMode, powerModeTimer) == POWER_START
    {
      var power := DecayPower(PowerState(powerMode, powerModeTimer));
      powerMode, powerModeTimer := power.active, power.timer;
      var entered := MovePacman();
      MoveGhosts(rolls);
    }

    /** `gameLoop`, one display frame: nothing while stopped or paused;
        otherwise the frame counter advances, and every GAME_SPEED-th frame
        runs a logic tick with the given ghost draws. */
    method GameLoop(rolls: seq<GhostRoll>)
      requires Valid() && ValidRolls(rolls)
      modifies this`pacman, this`ghosts, this`score, this`lives, this`powerMode, this`powerModeTimer,
        this`frameCount, this`gameRunning, board
      ensures Valid()
      ensures gamePaused == old(gamePaused)
      ensures !old(gameRunning) || gamePaused ==> unchanged(this) && unchanged(board)
      ensures old(gameRunning) && !gamePaused ==> frameCount == old(frameCount) + 1
      ensures old(gameRunning) && !gamePaused && !IsLogicFrame(frameCount) ==>
        unchanged(this`pacman, this`ghosts, this`score, this`lives, this`powerMode, this`powerModeTimer,
          this`gameRunning) && unchanged(board)
      ensures score >= old(score) && lives <= old(lives)
      ensures gameRunning ==> old(gameRunning)
      ensures Pellets() <= old(Pellets()) && |Pellets()| <= |old(Pellets())|
      ensures old(gameRunning) && !gamePaused && IsLogicFrame(frameCount) && NoPelletsLeft() ==> !gameRunning
    {
      ghost var before := Pellets();
      if !gameRunning || gamePaused {
        return;
      }
      frameCount := frameCount + 1;
      if IsLogicFrame(frameCount) {
        Tick(rolls);
      }
      SubsetIsSmaller(Pellets(), before);
    }

    /** Fewer pellets as a set means no more of them in number. */
    static lemma SubsetIsSmaller(a: set<(int, int)>, b: set<(int, int)>)
      requires a <= b
      ensures |a| <= |b|
    {
      assert b == a + (b - a);
    }

    /** `startGame`: from a stopped game, reset and run the first frame
        (which is not a logic tick); a running game is left alone. */
    method StartGame()
      requires Valid()
      modifies this, board
      ensures Valid()
      ensures old(gameRunning) ==> unchanged(this) && unchanged(board)
      ensures !old(gameRunning) ==>
        && gameRunning && !gamePaused && frameCount == 1
        && score == 0 && lives == 3 && !powerMode && powerModeTimer == 0
        && pacman == old(pacman).(x := PACMAN_START.x, y := PACMAN_START.y, direction := Right, nextDirection := None)
        && ghosts == GHOST_SPAWNS
        && Pellets() == old(Pellets())
    {
      if !gameRunning {
        // The flags are raised after the reset rather than before it, as
        // the reset neither reads nor writes them.
        ResetGameState();
        gameRunning := true;
        gamePaused := false;
        GameLoop(IDLE_ROLLS);
      }
    }

    /** `pauseGame`: toggle the pause; resuming a running game runs one
        frame at once. */
    method PauseGame(rolls: seq<GhostRoll>)
      requires Valid() && ValidRolls(rolls)
      modifies this, board
      ensures Valid()
      ensures gamePaused == !old(gamePaused)
      ensures gamePaused || !old(gameRunning) ==>
        unchanged(this`pacman, this`ghosts, this`score, this`lives, this`powerMode, this`powerModeTimer,
          this`frameCount, this`gameRunning) && unchanged(board)
      ensures !gamePaused && old(gameRunning) ==> frameCount == old(frameCount) + 1
      ensures score >= old(score) && lives <= old(lives)
    {
      gamePaused := !gamePaused;
      if !gamePaused && gameRunning {
        GameLoop(rolls);
      }
    }

    /** `resetGame`: stop, unpause and reset. */
    method ResetGame()
      requires Valid()
      modifies this, board
      ensures Valid()
      ensures !gameRunning && !gamePaused
      ensures score == 0 && lives == 3 && !powerMode && powerModeTimer == 0 && frameCount == 0
      ensures pacman == old(pacman).(x := PACMAN_START.x, y := PACMAN_START.y, direction := Right, nextDirection := None)
      ensures ghosts == GHOST_SPAWNS
      ensures Pellets() == old(Pellets())
    {
      gameRunning := false;
      gamePaused := false;
      ResetGameState();
    }
  }
}
