/**
  The moving pieces: Pac-Man, the four ghosts, their spawn places, and the
  random draws a ghost makes on each logic tick.
*/
module Actors {
  import opened Wrappers
  import opened Grid

  /** The `pacman` record. `nextDirection` is the turn the player asked for
      and that has not been taken yet; `mouthOpen` and `animationCounter`
      drive only the drawing. */
  datatype Pacman = Pacman(
    x: int, y: int,
    direction: Direction,
    nextDirection: Option<Direction>,
    mouthOpen: bool,
    animationCounter: int)

  /** A ghost's position and heading (its colour and name are display
      data). */
  datatype Ghost = Ghost(x: int, y: int, direction: Direction)

  const PACMAN_START: Pacman := Pacman(9, 15, Right, None, true, 0)

  /** Blinky, Pinky, Inky and Clyde, in the order the game lists them. */
  const GHOST_SPAWNS: seq<Ghost> :=
    [Ghost(9, 9, Up), Ghost(8, 10, Left), Ghost(10, 10, Right), Ghost(9, 10, Down)]

  /** Where an eaten ghost is put back, whichever ghost it is. */
  const GHOST_PEN_X: int := 9
  const GHOST_PEN_Y: int := 10

  /** A ghost is on the board, and so is the cell it came from (the cell
      behind its heading), which is where a forced reversal takes it. */
  predicate GhostOk(g: Ghost) {
    InBounds(g.x, g.y) && InBounds(g.x - g.direction.DX(), g.y - g.direction.DY())
  }

  /** Every ghost starts on the board, its back to a cell of the board. */
  lemma SpawnsAreOk()
    ensures forall g :: g in GHOST_SPAWNS ==> GhostOk(g)
  {
  }

  /** Of the spawn cells only Blinky's is a corridor; the other three, one
      of which is the pen an eaten ghost returns to, are walls of the maze. */
  lemma SpawnCells()
    ensures MazeCell(GHOST_SPAWNS[0].x, GHOST_SPAWNS[0].y) == EMPTY
    ensures forall i :: 1 <= i < |GHOST_SPAWNS| ==> MazeCell(GHOST_SPAWNS[i].x, GHOST_SPAWNS[i].y) == WALL
    ensures MazeCell(GHOST_PEN_X, GHOST_PEN_Y) == WALL
  {
  }

  /** Pac-Man back at the start after losing a life; the buffered turn and
      the animation state survive. */
  function Respawn(p: Pacman): (r: Pacman)
    ensures r.x == PACMAN_START.x && r.y == PACMAN_START.y && r.direction == Right
    ensures r.nextDirection == p.nextDirection
    ensures r.mouthOpen == p.mouthOpen && r.animationCounter == p.animationCounter
  {
    p.(x := PACMAN_START.x, y := PACMAN_START.y, direction := Right)
  }

  /** The start cell is a corridor of the maze. */
  lemma StartIsOpen()
    ensures InBounds(PACMAN_START.x, PACMAN_START.y)
    ensures MazeCell(PACMAN_START.x, PACMAN_START.y) == PELLET
  {
  }

  /** The two `Math.random()` draws of one ghost on one tick: `chase`
      stands for `Math.random() < 0.7`, `pick` for the value in [0, 1) that
      chooses among the candidate directions. */
  datatype GhostRoll = GhostRoll(chase: bool, pick: real)

  predicate ValidRoll(r: GhostRoll) {
    0.0 <= r.pick < 1.0
  }

  predicate ValidRolls(rs: seq<GhostRoll>) {
    |rs| == |GHOST_SPAWNS| && forall i :: 0 <= i < |rs| ==> ValidRoll(rs[i])
  }
}
