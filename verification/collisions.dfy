/**
  Collision resolution after everybody has moved: the ghosts are examined
  one after the other, in roster order, against the state the previous
  ones left behind.
*/
module Collisions {
  import opened Grid
  import opened Actors

  const GHOST_POINTS: int := 200

  /** The part of the session state `checkCollisions` reads and writes. */
  datatype Outcome = Outcome(pacman: Pacman, ghosts: seq<Ghost>, score: int, lives: int, running: bool)

  predicate Catches(g: Ghost, p: Pacman) {
    g.x == p.x && g.y == p.y
  }

  /** An eaten ghost goes back to the pen and keeps its heading. */
  function Eaten(g: Ghost): (r: Ghost)
    ensures r.direction == g.direction
    ensures GhostOk(r)
  {
    g.(x := GHOST_PEN_X, y := GHOST_PEN_Y)
  }

  /** The state after losing a life with lives to spare: everybody back at
      the start, and no ghost left on Pac-Man's cell. */
  function LoseLife(s: Outcome): (r: Outcome)
    ensures r.lives == s.lives - 1 && r.score == s.score && r.running == s.running
    ensures r.pacman.nextDirection == s.pacman.nextDirection
    ensures |r.ghosts| == |GHOST_SPAWNS|
    ensures forall j :: 0 <= j < |r.ghosts| ==> !Catches(r.ghosts[j], r.pacman) && GhostOk(r.ghosts[j])
  {
    s.(lives := s.lives - 1, pacman := Respawn(s.pacman), ghosts := GHOST_SPAWNS)
  }

  /** The effect of ghost i on the state. */
  function Collide(s: Outcome, i: nat, powerMode: bool): (r: Outcome)
    requires i < |s.ghosts| == |GHOST_SPAWNS|
    ensures |r.ghosts| == |s.ghosts|
  {
    var g := s.ghosts[i];
    if !Catches(g, s.pacman) then s
    else if powerMode then s.(score := s.score + GHOST_POINTS, ghosts := s.ghosts[i := Eaten(g)])
    else if s.lives - 1 > 0 then LoseLife(s)
    else s.(lives := s.lives - 1, running := false)
  }

  /** Ghosts i, i + 1, ... examined in order. */
  function ResolveFrom(s: Outcome, i: nat, powerMode: bool): (r: Outcome)
    requires i <= |s.ghosts| == |GHOST_SPAWNS|
    ensures |r.ghosts| == |s.ghosts|
    ensures r.score >= s.score && r.lives <= s.lives
    ensures r.running ==> s.running
    ensures (s.running ==> s.lives > 0) ==> (r.running ==> r.lives > 0)
    ensures r.pacman == s.pacman || r.pacman == Respawn(s.pacman)
    ensures (forall g :: g in s.ghosts ==> GhostOk(g)) ==> (forall g :: g in r.ghosts ==> GhostOk(g))
    decreases |s.ghosts| - i
  {
    if i == |s.ghosts| then s
    else ResolveFrom(Collide(s, i, powerMode), i + 1, powerMode)
  }

  /** Number of ghosts of gs standing on Pac-Man's cell. */
  function CountCatches(gs: seq<Ghost>, p: Pacman): (n: nat)
    ensures n <= |gs|
    ensures n == 0 <==> forall j :: 0 <= j < |gs| ==> !Catches(gs[j], p)
  {
    if gs == [] then 0
    else (if Catches(gs[0], p) then 1 else 0) + CountCatches(gs[1..], p)
  }

  lemma CountCatchesStep(gs: seq<Ghost>, p: Pacman, i: nat)
    requires i < |gs|
    ensures CountCatches(gs[i..], p) == (if Catches(gs[i], p) then 1 else 0) + CountCatches(gs[i + 1..], p)
  {
    assert gs[i..][1..] == gs[i + 1..];
  }

  /** No ghost on Pac-Man's cell: nothing happens. */
  lemma {:induction false} NoCatchNoChange(s: Outcome, i: nat, powerMode: bool)
    requires i <= |s.ghosts| == |GHOST_SPAWNS|
    requires forall j :: i <= j < |s.ghosts| ==> !Catches(s.ghosts[j], s.pacman)
    ensures ResolveFrom(s, i, powerMode) == s
    decreases |s.ghosts| - i
  {
    if i < |s.ghosts| {
      NoCatchNoChange(s, i + 1, powerMode);
    }
  }

  /** In power mode every ghost on Pac-Man's cell is eaten: 200 points each,
      only those ghosts move (to the pen, heading kept), Pac-Man, the lives
      and the running flag are untouched. */
  lemma {:induction false} PowerModeEatsGhosts(s: Outcome, i: nat)
    requires i <= |s.ghosts| == |GHOST_SPAWNS|
    ensures var r := ResolveFrom(s, i, true);
      && r.pacman == s.pacman && r.lives == s.lives && r.running == s.running
      && r.score == s.score + GHOST_POINTS * CountCatches(s.ghosts[i..], s.pacman)
      && forall j :: 0 <= j < |s.ghosts| ==>
           r.ghosts[j] == if i <= j && Catches(s.ghosts[j], s.pacman) then Eaten(s.ghosts[j]) else s.ghosts[j]
    decreases |s.ghosts| - i
  {
    if i < |s.ghosts| {
      var s' := Collide(s, i, true);
      PowerModeEatsOne(s, i);
      PowerModeEatsGhosts(s', i + 1);
      CountCatchesStep(s.ghosts, s.pacman, i);
      assert s'.ghosts[i + 1..] == s.ghosts[i + 1..];
    }
  }

  /** One ghost in power mode: eaten if it is on Pac-Man's cell, and nothing
      else changes. */
  lemma PowerModeEatsOne(s: Outcome, i: nat)
    requires i < |s.ghosts| == |GHOST_SPAWNS|
    ensures var r := Collide(s, i, true);
      && r.pacman == s.pacman && r.lives == s.lives && r.running == s.running
      && r.score == s.score + (if Catches(s.ghosts[i], s.pacman) then GHOST_POINTS else 0)
      && forall j :: 0 <= j < |s.ghosts| ==>
           r.ghosts[j] == if j == i && Catches(s.ghosts[j], s.pacman) then Eaten(s.ghosts[j]) else s.ghosts[j]
  {
  }

  /** A spawned ghost never stands on Pac-Man's start cell. */
  lemma SpawnsMissStart(p: Pacman, j: nat)
    requires j < |GHOST_SPAWNS|
    ensures !Catches(GHOST_SPAWNS[j], Respawn(p))
  {
  }

  /** Without power mode, the first ghost on Pac-Man's cell costs a life; with
      lives to spare Pac-Man and all four ghosts go back to their starts, and
      no later ghost can then be on Pac-Man's cell. */
  lemma LifeLostWithLivesLeft(s: Outcome, i: nat, first: nat)
    requires i <= first < |s.ghosts| == |GHOST_SPAWNS|
    requires Catches(s.ghosts[first], s.pacman)
    requires forall j :: i <= j < first ==> !Catches(s.ghosts[j], s.pacman)
    requires s.lives > 1
    ensures ResolveFrom(s, i, false) == LoseLife(s)
  {
    SkipMisses(s, i, first, false);
    var s' := Collide(s, first, false);
    assert s' == LoseLife(s);
    forall j | first + 1 <= j < |s'.ghosts|
      ensures !Catches(s'.ghosts[j], s'.pacman)
    {
      SpawnsMissStart(s.pacman, j);
    }
    NoCatchNoChange(s', first + 1, false);
  }

  lemma {:induction false} SkipMisses(s: Outcome, i: nat, first: nat, powerMode: bool)
    requires i <= first <= |s.ghosts| == |GHOST_SPAWNS|
    requires forall j :: i <= j < first ==> !Catches(s.ghosts[j], s.pacman)
    ensures ResolveFrom(s, i, powerMode) == ResolveFrom(s, first, powerMode)
    decreases first - i
  {
    if i < first {
      SkipMisses(s, i + 1, first, powerMode);
    }
  }

  /** Without power mode and with at most one life left, every ghost on
      Pac-Man's cell takes a life and the game stops; nothing is respawned,
      so two ghosts on the cell take the lives below zero. */
  lemma {:induction false} LastLifeLost(s: Outcome, i: nat)
    requires i <= |s.ghosts| == |GHOST_SPAWNS|
    requires s.lives <= 1
    ensures var n := CountCatches(s.ghosts[i..], s.pacman);
      ResolveFrom(s, i, false) == if n == 0 then s else s.(lives := s.lives - n, running := false)
    decreases |s.ghosts| - i
  {
    if i < |s.ghosts| {
      var s' := Collide(s, i, false);
      LastLifeLost(s', i + 1);
      CountCatchesStep(s.ghosts, s.pacman, i);
    }
  }

  /** The concrete case: one life left and two ghosts on Pac-Man's cell. */
  lemma TwoGhostsOnLastLife(p: Pacman, score: int)
    requires p.x == PACMAN_START.x && p.y == PACMAN_START.y
    ensures var gs := [Ghost(p.x, p.y, Up), Ghost(p.x, p.y, Down), GHOST_SPAWNS[2], GHOST_SPAWNS[3]];
      var r := ResolveFrom(Outcome(p, gs, score, 1, true), 0, false);
      r.lives == -1 && !r.running && r.pacman == p && r.ghosts == gs
  {
    var gs := [Ghost(p.x, p.y, Up), Ghost(p.x, p.y, Down), GHOST_SPAWNS[2], GHOST_SPAWNS[3]];
    var s := Outcome(p, gs, score, 1, true);
    LastLifeLost(s, 0);
    CountCatchesStep(gs, p, 0);
    CountCatchesStep(gs, p, 1);
    CountCatchesStep(gs, p, 2);
    CountCatchesStep(gs, p, 3);
    assert gs[0..] == gs;
  }
}
