/**
  The fixed 21 x 19 maze of the game, its cell kinds, the four movement
  directions and the small arithmetic every actor uses when it steps:
  the horizontal tunnel wrap and the Manhattan distance.
  Coordinates are (x, y): x is the column 0..18, y the row 0..20, and the
  board is indexed row first, as `gameMap[y][x]` is.
*/
module Grid {

  const ROWS: int := 21
  const COLS: int := 19

  // Cell kinds of the board.
  const EMPTY: int := 0
  const WALL: int := 1
  const PELLET: int := 2
  const POWER_PELLET: int := 3

  predicate IsPellet(c: int) {
    c == PELLET || c == POWER_PELLET
  }

  predicate InBounds(x: int, y: int) {
    0 <= x < COLS && 0 <= y < ROWS
  }

  /** The board as the game declares it at load time. */
  const MAZE: seq<seq<int>> := [
    [1,1,1,1,1,1,1,1,1,1,1,1,1,1,1,1,1,1,1],
    [1,2,2,2,2,2,2,2,2,1,2,2,2,2,2,2,2,2,1],
    [1,3,1,1,2,1,1,1,2,1,2,1,1,1,2,1,1,3,1],
    [1,2,2,2,2,2,2,2,2,2,2,2,2,2,2,2,2,2,1],
    [1,2,1,1,2,1,2,1,1,1,1,1,2,1,2,1,1,2,1],
    [1,2,2,2,2,1,2,2,2,1,2,2,2,1,2,2,2,2,1],
    [1,1,1,1,2,1,1,1,0,1,0,1,1,1,2,1,1,1,1],
    [0,0,0,1,2,1,0,0,0,0,0,0,0,1,2,1,0,0,0],
    [1,1,1,1,2,1,0,1,1,0,1,1,0,1,2,1,1,1,1],
    [0,0,0,0,2,0,0,1,0,0,0,1,0,0,2,0,0,0,0],
    [1,1,1,1,2,1,0,1,1,1,1,1,0,1,2,1,1,1,1],
    [0,0,0,1,2,1,0,0,0,0,0,0,0,1,2,1,0,0,0],
    [1,1,1,1,2,1,0,1,1,1,1,1,0,1,2,1,1,1,1],
    [1,2,2,2,2,2,2,2,2,1,2,2,2,2,2,2,2,2,1],
    [1,2,1,1,2,1,1,1,2,1,2,1,1,1,2,1,1,2,1],
    [1,3,2,1,2,2,2,2,2,2,2,2,2,2,2,1,2,3,1],
    [1,1,2,1,2,1,2,1,1,1,1,1,2,1,2,1,2,1,1],
    [1,2,2,2,2,1,2,2,2,1,2,2,2,1,2,2,2,2,1],
    [1,2,1,1,1,1,1,1,2,1,2,1,1,1,1,1,1,2,1],
    [1,2,2,2,2,2,2,2,2,2,2,2,2,2,2,2,2,2,1],
    [1,1,1,1,1,1,1,1,1,1,1,1,1,1,1,1,1,1,1]
  ]

  lemma MazeShape()
    ensures |MAZE| == ROWS
    ensures forall y :: 0 <= y < ROWS ==> |MAZE[y]| == COLS
  {
  }

  /** The maze's value at column x, row y. */
  function MazeCell(x: int, y: int): int
    requires InBounds(x, y)
  {
    MazeShape();
    MAZE[y][x]
  }

  /** The kind of pellet the reset puts back on a cell: power pellets in the
      four corners of rows 2 and 15, ordinary pellets elsewhere. */
  function PelletKind(x: int, y: int): (k: int)
    ensures IsPellet(k)
  {
    if (y == 2 || y == 15) && (x == 1 || x == 17) then POWER_PELLET else PELLET
  }

  /** The reset's pellet kinds agree with the maze: every pellet of the maze
      is of the kind the reset would write on its cell, and each of the four
      corners the reset names does hold a power pellet. */
  lemma MazePelletKinds()
    ensures |MAZE| == ROWS && forall y :: 0 <= y < ROWS ==> |MAZE[y]| == COLS
    ensures MAZE[2][1] == MAZE[2][17] == MAZE[15][1] == MAZE[15][17] == POWER_PELLET
    ensures forall y, x :: 0 <= y < ROWS && 0 <= x < COLS && IsPellet(MAZE[y][x]) ==>
              MAZE[y][x] == PelletKind(x, y)
    ensures forall y, x :: InBounds(x, y) && IsPellet(MazeCell(x, y)) ==> MazeCell(x, y) == PelletKind(x, y)
  {
    MazeShape();
    forall y | 0 <= y < ROWS && y != 2 && y != 15
      ensures POWER_PELLET !in MAZE[y]
    {
      if y == 0 {} else if y == 1 {} else if y == 3 {} else if y == 4 {}
      else if y == 5 {} else if y == 6 {} else if y == 7 {} else if y == 8 {}
      else if y == 9 {} else if y == 10 {} else if y == 11 {} else if y == 12 {}
      else if y == 13 {} else if y == 14 {} else if y == 16 {} else if y == 17 {}
      else if y == 18 {} else if y == 19 {} else {}
    }
    assert POWER_PELLET !in MAZE[2][2..17];
    assert POWER_PELLET !in MAZE[15][2..17];
    assert MAZE[2][1] == MAZE[2][17] == MAZE[15][1] == MAZE[15][17] == POWER_PELLET;
  }

  /** What a cell may hold during a session: the maze's own value, or EMPTY
      where the maze had a pellet that has been eaten. */
  predicate FollowsMaze(c: int, x: int, y: int)
    requires InBounds(x, y)
  {
    c == MazeCell(x, y) || (IsPellet(MazeCell(x, y)) && c == EMPTY)
  }

  /** The value `resetGameState` writes back into a cell: empty and wall
      cells are kept, anything else becomes the pellet kind of its place. */
  function ResetCell(c: int, x: int, y: int): (r: int)
    ensures c == EMPTY || c == WALL ==> r == c
    ensures c != EMPTY && c != WALL ==> IsPellet(r)
  {
    if c == EMPTY then c
    else if c != WALL then PelletKind(x, y)
    else c
  }

  /** On a board that follows the maze the reset puts every uneaten pellet
      back to its maze value and leaves every other cell alone; in
      particular an eaten pellet (now EMPTY) is not restored. So on such a
      board the reset changes no cell at all. */
  lemma ResetCellFollowsMaze(c: int, x: int, y: int)
    requires InBounds(x, y) && FollowsMaze(c, x, y)
    ensures FollowsMaze(ResetCell(c, x, y), x, y)
    ensures IsPellet(c) ==> ResetCell(c, x, y) == MazeCell(x, y)
    ensures !IsPellet(c) ==> ResetCell(c, x, y) == c
    ensures ResetCell(c, x, y) == c
  {
    MazePelletKinds();
  }

  lemma ResetCellIdempotent(c: int, x: int, y: int)
    ensures ResetCell(ResetCell(c, x, y), x, y) == ResetCell(c, x, y)
    ensures c == EMPTY || c == WALL <==> ResetCell(c, x, y) == c && !IsPellet(c)
  {
  }

  const PELLET_POINTS: int := 10
  const POWER_PELLET_POINTS: int := 50

  /** Points for eating what a cell holds. */
  function PelletPoints(c: int): (n: int)
    ensures n > 0 <==> IsPellet(c)
  {
    if c == PELLET then PELLET_POINTS
    else if c == POWER_PELLET then POWER_PELLET_POINTS
    else 0
  }

  /** The four unit moves; `DX` and `DY` are the fields of the game's
      direction records. */
  datatype Direction = Up | Down | Left | Right {
    function DX(): int {
      match this
      case Up => 0
      case Down => 0
      case Left => -1
      case Right => 1
    }
    function DY(): int {
      match this
      case Up => -1
      case Down => 1
      case Left => 0
      case Right => 0
    }
  }

  /** The order in which the ghosts enumerate directions. */
  const DIRECTIONS: seq<Direction> := [Up, Down, Left, Right]

  /** Position of a direction in DIRECTIONS. */
  function Rank(d: Direction): (k: nat)
    ensures k < |DIRECTIONS| && DIRECTIONS[k] == d
  {
    match d
    case Up => 0
    case Down => 1
    case Left => 2
    case Right => 3
  }

  /** The direction record with both components negated. */
  function Reverse(d: Direction): (r: Direction)
    ensures r.DX() == -d.DX() && r.DY() == -d.DY()
  {
    match d
    case Up => Down
    case Down => Up
    case Left => Right
    case Right => Left
  }

  /** The ghosts' test for "this would reverse my current direction". */
  predicate IsReverseOf(d: Direction, current: Direction) {
    d.DX() == -current.DX() && d.DY() == -current.DY()
  }

  lemma ReverseIsUnique(d: Direction, current: Direction)
    ensures IsReverseOf(d, current) <==> d == Reverse(current)
    ensures Reverse(Reverse(d)) == d
  {
  }

  /** The tunnel: a column that left the board on one side comes back on
      the other. */
  function WrapColumn(x: int): (r: int)
    ensures 0 <= r < COLS
    ensures -1 <= x <= COLS ==> r == x % COLS
  {
    var x' := if x < 0 then COLS - 1 else x;
    if x' >= COLS then 0 else x'
  }

  function Abs(n: int): (r: int)
    ensures r >= 0
  {
    if n < 0 then -n else n
  }

  /** Manhattan distance between two cells. */
  function Distance(x1: int, y1: int, x2: int, y2: int): (r: int)
    ensures r >= 0
    ensures r == 0 <==> x1 == x2 && y1 == y2
  {
    Abs(x1 - x2) + Abs(y1 - y2)
  }
}
