/**
  Frame cadence and the power-mode timer. The game loop runs once per
  display frame but advances the simulation only on every GAME_SPEED-th
  frame; eating a power pellet starts a countdown measured in such ticks.
*/
module Timing {

  const GAME_SPEED: int := 8

  /** `Math.floor(300 / GAME_SPEED)` ticks, that is 37. */
  const POWER_DURATION: int := 300 / GAME_SPEED

  /** The position of a frame within its period of GAME_SPEED frames. */
  function FramePhase(frameCount: int): (p: int)
    ensures 0 <= p < GAME_SPEED
  {
    frameCount % GAME_SPEED
  }

  /** Whether the frame with this (already incremented) counter runs a
      logic tick: the GAME_SPEED - 1 frames after a tick frame run none. */
  predicate IsLogicFrame(frameCount: int): (tick: bool)
    ensures tick ==> forall f :: frameCount < f < frameCount + GAME_SPEED ==> FramePhase(f) != 0
  {
    FramePhase(frameCount) == 0
  }

  /** Of any GAME_SPEED consecutive frames at least one runs a logic
      tick ... */
  lemma TickInEveryPeriod(start: int) returns (i: int)
    ensures start <= i < start + GAME_SPEED && IsLogicFrame(i)
  {
    i := start + (GAME_SPEED - start % GAME_SPEED) % GAME_SPEED;
  }

  /** ... and at most one. */
  lemma OneTickPerPeriod(start: int, i: int, j: int)
    requires start <= i < start + GAME_SPEED && start <= j < start + GAME_SPEED
    requires IsLogicFrame(i) && IsLogicFrame(j)
    ensures i == j
  {
    var qi, qj := i / GAME_SPEED, j / GAME_SPEED;
    assert i == qi * GAME_SPEED && j == qj * GAME_SPEED;
  }

  /** `powerMode` and `powerModeTimer`. */
  datatype PowerState = PowerState(active: bool, timer: int)

  /** The session invariant of the pair: the flag is up exactly while ticks
      remain, and the timer never exceeds a full duration. */
  predicate ValidPower(p: PowerState) {
    0 <= p.timer <= POWER_DURATION && (p.active <==> p.timer > 0)
  }

  /** What the start of a logic tick does to the pair: while the flag is up
      the timer loses one tick and the flag drops once it reaches zero. */
  function DecayPower(p: PowerState): (r: PowerState)
    ensures ValidPower(p) ==> ValidPower(r)
    ensures ValidPower(p) && p.active ==> r.timer == p.timer - 1
    ensures !p.active ==> r == p
  {
    if p.active then
      var t := p.timer - 1;
      PowerState(t > 0, t)
    else p
  }

  /** Eating a power pellet: the flag goes up with a full duration. */
  const POWER_START: PowerState := PowerState(true, POWER_DURATION)

  function DecayTimes(p: PowerState, k: nat): PowerState
    decreases k
  {
    if k == 0 then p else DecayTimes(DecayPower(p), k - 1)
  }

  /** A countdown of t ticks keeps the flag up for the next t - 1 tick
      starts and drops it at the t-th. */
  lemma {:induction false} CountdownLasts(t: int, k: nat)
    requires t > 0
    ensures DecayTimes(PowerState(true, t), k).active <==> k < t
    ensures k <= t ==> DecayTimes(PowerState(true, t), k).timer == t - k
    decreases k
  {
    if k > 0 {
      if t > 1 {
        CountdownLasts(t - 1, k - 1);
      } else {
        DecayStopsWhenInactive(PowerState(false, 0), k - 1);
      }
    }
  }

  lemma {:induction false} DecayStopsWhenInactive(p: PowerState, k: nat)
    requires !p.active
    ensures DecayTimes(p, k) == p
    decreases k
  {
    if k > 0 {
      DecayStopsWhenInactive(DecayPower(p), k - 1);
    }
  }

  /** After a power pellet the ghosts flee for the rest of that tick and
      the following POWER_DURATION - 1 ticks; the flag is down at the start
      of the POWER_DURATION-th tick after the pellet. */
  lemma PowerModeDuration(k: nat)
    ensures POWER_DURATION == 37
    ensures DecayTimes(POWER_START, k).active <==> k < POWER_DURATION
  {
    CountdownLasts(POWER_DURATION, k);
  }
}
